/** Manifests of counts and digests, and what it takes for two of them to reconcile. */
module Reconcile {
  import opened CanonicalJson
  import opened LegacyMapping
  import opened Order
  import opened Text

  /** Stable id and owning tenant of each row. */
  type Records = map<TableName, seq<(string, string)>>

  /** One table of a manifest as read from a file, where any key may be missing. */
  datatype Entry = Entry(count: Option<int>, ids: Option<string>, ownership: Option<string>)

  type Manifest = map<TableName, Entry>

  type Counts = map<TableName, nat>

  // ----- making a manifest

  function Firsts(pairs: seq<(string, string)>): seq<string> {
    seq(|pairs|, i requires 0 <= i < |pairs| => pairs[i].0)
  }

  function Described(pairs: seq<(string, string)>, sha256: string -> string): Entry {
    Entry(Some(|pairs|),
          Some(sha256(CanonicalIds(Sort(Firsts(pairs), TextLe)))),
          Some(sha256(CanonicalOwnership(Sort(pairs, PairLe)))))
  }

  predicate Complete<T>(m: map<TableName, T>) {
    m.Keys == set name | name in TABLES
  }

  function AllDescribed(records: Records, sha256: string -> string): Manifest {
    map name | name in records :: Described(records[name], sha256)
  }

  function ManifestFor(records: Records, sha256: string -> string): Result<Manifest> {
    if !Complete(records) then Err(RecordsIncomplete) else Ok(AllDescribed(records, sha256))
  }

  method ManifestForRecords(records: Records, sha256: string -> string) returns (r: Result<Manifest>)
    ensures r == ManifestFor(records, sha256)
  {
    if !Complete(records) { return Err(RecordsIncomplete); }
    var tables := DescribeAll(records, sha256);
    return Ok(tables);
  }

  method DescribeAll(records: Records, sha256: string -> string) returns (tables: Manifest)
    ensures tables == AllDescribed(records, sha256)
  {
    var rest := records.Keys;
    tables := map[];
    while rest != {}
      invariant rest <= records.Keys && tables.Keys == records.Keys - rest
      invariant forall name :: name in tables ==> tables[name] == Described(records[name], sha256)
      decreases rest
    {
      var name :| name in rest;
      var entry := Describe(records[name], sha256);
      tables, rest := tables[name := entry], rest - {name};
    }
  }

  method Describe(rows: seq<(string, string)>, sha256: string -> string) returns (entry: Entry)
    ensures entry == Described(rows, sha256)
  {
    var ids, ownership := Sort(Firsts(rows), TextLe), Sort(rows, PairLe);
    entry := Entry(Some(|rows|), Some(sha256(CanonicalIds(ids))), Some(sha256(CanonicalOwnership(ownership))));
  }

  // ----- from a database

  /** The row's metadata, its tenant converted where the mapping knows it. */
  function Metadata(row: Row, tenants: IdMap): (string, string) {
    (Str(Get(row, Id)), if TenantText(row) in tenants then tenants[TenantText(row)] else TenantText(row))
  }

  function AllMetadata(rows: seq<Row>, tenants: IdMap): seq<(string, string)> {
    seq(|rows|, i requires 0 <= i < |rows| => Metadata(rows[i], tenants))
  }

  function TenantMapping(tenantIds: IdMap): Result<IdMap> {
    if tenantIds == map[] then Ok(map[]) else Validated(tenantIds, TenantIds)
  }

  predicate HasOwners(rows: seq<Row>) {
    forall i :: 0 <= i < |rows| ==> Id in rows[i] && TenantId in rows[i]
  }

  function Ownerless(db: Database, names: seq<TableName>): Option<TableName>
    requires forall name :: name in names ==> name in db
  {
    if names == [] then None
    else if !HasOwners(db[names[0]]) then Some(names[0])
    else Ownerless(db, names[1..])
  }

  function Collected(db: Database, names: seq<TableName>, tenants: IdMap): Records
    requires forall name :: name in names ==> name in db
  {
    map name | name in names :: AllMetadata(db[name], tenants)
  }

  /** A database URL, taken apart as `urlparse` does. */
  datatype Url = Url(scheme: string, path: string)

  /** Where a manifest is read from: the URL, the files that exist by the names they are looked up under, and whether
      the database answers. */
  datatype Location = Location(url: Url, files: set<string>, readable: bool)

  /** The file that is looked for before connecting: only for SQLite, and by the path as it stands in the URL. */
  function SqlitePath(url: Url): Option<string> {
    if url.scheme != "sqlite" || url.path == "" || url.path == "/:memory:" then None else Some(url.path)
  }

  predicate Found(at: Location) {
    SqlitePath(at.url).Some? ==> SqlitePath(at.url).value in at.files
  }

  function ManifestOf(at: Location, db: Database, tenantIds: IdMap, sha256: string -> string): Result<Manifest> {
    var tenants := TenantMapping(tenantIds);
    if !Found(at) then Err(SqliteMissing)
    else if tenants.Err? then Err(tenants.error)
    else if !at.readable then Err(DatabaseUnreadable)
    else if exists name :: name in TABLES && name !in db then Err(SourceIncomplete)
    else if Ownerless(db, TABLES).Some? then Err(ColumnsRequired(Ownerless(db, TABLES).value))
    else ManifestFor(Collected(db, TABLES, tenants.value), sha256)
  }

  method ManifestFromDatabase(at: Location, db: Database, tenantIds: IdMap, sha256: string -> string)
    returns (r: Result<Manifest>)
    ensures r == ManifestOf(at, db, tenantIds, sha256)
  {
    var sqlitePath := SqlitePath(at.url);
    if sqlitePath.Some? && sqlitePath.value !in at.files { return Err(SqliteMissing); }
    var tenants := TenantMapping(tenantIds);
    if tenants.Err? { return Err(tenants.error); }
    if !at.readable { return Err(DatabaseUnreadable); }
    if exists name :: name in TABLES && name !in db { return Err(SourceIncomplete); }
    var ownerless, records := Collect(db, TABLES, tenants.value);
    if ownerless.Some? { return Err(ColumnsRequired(ownerless.value)); }
    r := ManifestForRecords(records, sha256);
  }

  method Collect(db: Database, names: seq<TableName>, tenants: IdMap)
    returns (ownerless: Option<TableName>, records: Records)
    requires forall name :: name in names ==> name in db
    ensures ownerless == Ownerless(db, names)
    ensures ownerless.None? ==> records == Collected(db, names, tenants)
  {
    records := map[];
    for i := 0 to |names|
      invariant Ownerless(db, names) == Ownerless(db, names[i..])
      invariant records == Collected(db, names[..i], tenants)
    {
      var name := names[i];
      assert names[i..][1..] == names[i + 1..];
      if !HasOwners(db[name]) { return Some(name), records; }
      records := records[name := AllMetadata(db[name], tenants)];
      assert names[..i + 1] == names[..i] + [name];
    }
    assert names[..|names|] == names;
    ownerless := None;
  }

  // ----- comparing two manifests

  function Compared(name: TableName, source: Entry, target: Entry): Result<nat> {
    if source.count != target.count then Err(CountDiffers(name))
    else if source.ids != target.ids then Err(IdsDiffer(name))
    else if source.ownership != target.ownership then Err(OwnershipDiffers(name))
    else if source.count.None? || source.count.value < 0 then Err(CountNotNatural(name))
    else Ok(source.count.value)
  }

  function Reconciled(names: seq<TableName>, source: Manifest, target: Manifest, done: Counts): Result<Counts>
    requires forall name :: name in names ==> name in source && name in target
  {
    if names == [] then Ok(done)
    else
      var count := Compared(names[0], source[names[0]], target[names[0]]);
      if count.Err? then Err(count.error)
      else Reconciled(names[1..], source, target, done[names[0] := count.value])
  }

  method ReconcileManifests(source: Manifest, target: Manifest) returns (r: Result<Counts>)
    requires Complete(source) && Complete(target)
    ensures r == Reconciled(TABLES, source, target, map[])
  {
    var result: Counts := map[];
    for i := 0 to |TABLES|
      invariant Reconciled(TABLES[i..], source, target, result) == Reconciled(TABLES, source, target, map[])
    {
      assert TABLES[i..][1..] == TABLES[i + 1..] && TABLES[i..][0] == TABLES[i];
      var a, b := source[TABLES[i]], target[TABLES[i]];
      if a.count != b.count { return Err(CountDiffers(TABLES[i])); }
      if a.ids != b.ids { return Err(IdsDiffer(TABLES[i])); }
      if a.ownership != b.ownership { return Err(OwnershipDiffers(TABLES[i])); }
      if a.count.None? || a.count.value < 0 { return Err(CountNotNatural(TABLES[i])); }
      result := result[TABLES[i] := a.count.value];
    }
    return Ok(result);
  }

  // ----- what reconciling means

  ghost predicate HasCount(m: Manifest, name: TableName)
    requires name in m
  {
    m[name].count.Some? && m[name].count.value >= 0
  }

  lemma {:induction false} ReconciledFrom(names: seq<TableName>, source: Manifest, target: Manifest, done: Counts)
    requires forall name :: name in names ==> name in source && name in target
    ensures var r := Reconciled(names, source, target, done);
      && (r.Ok? <==> forall name :: name in names ==> source[name] == target[name] && HasCount(source, name))
      && (r.Ok? ==> forall name :: name in r.value <==> name in done || name in names)
      && (r.Ok? ==> forall name :: name in r.value ==>
            r.value[name] == if name in names then source[name].count.value else done[name])
  {
    if names != [] {
      var first := Compared(names[0], source[names[0]], target[names[0]]);
      assert forall name :: name in names <==> name == names[0] || name in names[1..];
      if first.Ok? { ReconciledFrom(names[1..], source, target, done[names[0] := first.value]); }
    }
  }

  /** Reconciliation compares all of both manifests and reports the counts. Keys that both leave out
      compare equal: it is the making of a manifest that puts the digests there. */
  lemma ReconciledMeansEqual(source: Manifest, target: Manifest)
    requires Complete(source) && Complete(target)
    ensures var r := Reconciled(TABLES, source, target, map[]);
      && (r.Ok? <==> source == target && forall name :: name in TABLES ==> HasCount(source, name))
      && (r.Ok? ==> Complete(r.value) && forall name :: name in TABLES ==>
            Some(r.value[name] as int) == source[name].count)
  {
    ReconciledFrom(TABLES, source, target, map[]);
    assert source == target <==> forall name :: name in TABLES ==> source[name] == target[name];
  }

  /** A manifest file without digests reconciles with another one on the counts alone. */
  lemma CountsAloneReconcile(counts: Counts)
    requires Complete(counts)
    ensures var m := map name | name in counts :: Entry(Some(counts[name]), None, None);
      Reconciled(TABLES, m, m, map[]).Ok?
  {
    var m := map name | name in counts :: Entry(Some(counts[name]), None, None);
    ReconciledMeansEqual(m, m);
  }

  ghost predicate CollisionFree(hash: string -> string) {
    forall x, y :: hash(x) == hash(y) ==> x == y
  }

  lemma FirstsOfConcat(a: seq<(string, string)>, b: seq<(string, string)>)
    ensures Firsts(a + b) == Firsts(a) + Firsts(b)
  {}

  lemma FirstsOfCons(x: (string, string), s: seq<(string, string)>)
    ensures multiset(Firsts([x] + s)) == multiset{x.0} + multiset(Firsts(s))
  {
    FirstsOfConcat([x], s);
  }

  lemma {:induction false} FirstsOfInsert(x: (string, string), s: seq<(string, string)>)
    ensures multiset(Firsts(Insert(x, s, PairLe))) == multiset{x.0} + multiset(Firsts(s))
  {
    FirstsOfCons(x, s);
    if s != [] && !PairLe(x, s[0]) {
      FirstsOfInsert(x, s[1..]);
      FirstsOfCons(s[0], Insert(x, s[1..], PairLe));
      FirstsOfCons(s[0], s[1..]);
      assert s == [s[0]] + s[1..];
    }
  }

  lemma {:induction false} FirstsOfSort(s: seq<(string, string)>)
    ensures multiset(Firsts(Sort(s, PairLe))) == multiset(Firsts(s))
  {
    if s != [] {
      FirstsOfSort(s[1..]);
      FirstsOfInsert(s[0], Sort(s[1..], PairLe));
      FirstsOfCons(s[0], s[1..]);
      assert s == [s[0]] + s[1..];
    }
  }

  /** Rows that are the same up to order have the same ids up to order. */
  lemma SameFirsts(a: seq<(string, string)>, b: seq<(string, string)>)
    requires multiset(a) == multiset(b)
    ensures multiset(Firsts(a)) == multiset(Firsts(b))
  {
    PairLeIsTotal();
    SortEqualIffSameMultiset(a, b, PairLe);
    FirstsOfSort(a);
    FirstsOfSort(b);
  }

  /** Two tables are described alike when they hold the same rows with the same owners in any order,
      and, as long as the hash does not collide, only then. */
  lemma DescribedAlike(a: seq<(string, string)>, b: seq<(string, string)>, sha256: string -> string)
    ensures multiset(a) == multiset(b) ==> Described(a, sha256) == Described(b, sha256)
    ensures CollisionFree(sha256) && Described(a, sha256) == Described(b, sha256) ==> multiset(a) == multiset(b)
  {
    TextLeIsTotal();
    PairLeIsTotal();
    SortEqualIffSameMultiset(a, b, PairLe);
    if multiset(a) == multiset(b) {
      SameFirsts(a, b);
      SortEqualIffSameMultiset(Firsts(a), Firsts(b), TextLe);
      assert |multiset(a)| == |a| && |multiset(b)| == |b|;
    } else if CollisionFree(sha256) {
      CanonicalTextIsInjective([], [], Sort(a, PairLe), Sort(b, PairLe));
    }
  }

  /** Each digest by itself tells what it is made for: the ids, and the ids with their owners. */
  lemma DigestsTell(a: seq<(string, string)>, b: seq<(string, string)>, sha256: string -> string)
    requires CollisionFree(sha256)
    ensures Described(a, sha256).count == Some(|a|)
    ensures Described(a, sha256).ids == Described(b, sha256).ids <==> multiset(Firsts(a)) == multiset(Firsts(b))
    ensures Described(a, sha256).ownership == Described(b, sha256).ownership <==> multiset(a) == multiset(b)
  {
    TextLeIsTotal();
    PairLeIsTotal();
    SortEqualIffSameMultiset(a, b, PairLe);
    SortEqualIffSameMultiset(Firsts(a), Firsts(b), TextLe);
    CanonicalTextIsInjective(Sort(Firsts(a), TextLe), Sort(Firsts(b), TextLe), Sort(a, PairLe), Sort(b, PairLe));
  }

  ghost predicate SameRows(a: Records, b: Records)
    requires a.Keys == b.Keys
  {
    forall name :: name in a ==> multiset(a[name]) == multiset(b[name])
  }

  lemma SameRowsMeansSameManifest(a: Records, b: Records, sha256: string -> string)
    requires a.Keys == b.Keys
    ensures SameRows(a, b) ==> AllDescribed(a, sha256) == AllDescribed(b, sha256)
    ensures CollisionFree(sha256) && AllDescribed(a, sha256) == AllDescribed(b, sha256) ==> SameRows(a, b)
  {
    var source, target := AllDescribed(a, sha256), AllDescribed(b, sha256);
    forall name | name in a
      ensures multiset(a[name]) == multiset(b[name]) ==> source[name] == target[name]
      ensures CollisionFree(sha256) && source[name] == target[name] ==> multiset(a[name]) == multiset(b[name])
    {
      DescribedAlike(a[name], b[name], sha256);
    }
  }

  lemma DescribedAreCounted(records: Records, sha256: string -> string, name: TableName)
    requires name in records
    ensures HasCount(AllDescribed(records, sha256), name)
    ensures AllDescribed(records, sha256)[name].count == Some(|records[name]|)
  {}

  lemma DescribedReconcile(a: Records, b: Records, sha256: string -> string)
    requires Complete(a) && Complete(b)
    ensures var r := Reconciled(TABLES, AllDescribed(a, sha256), AllDescribed(b, sha256), map[]);
      && (r.Ok? <==> AllDescribed(a, sha256) == AllDescribed(b, sha256))
      && (r.Ok? ==> Complete(r.value) && forall name :: name in TABLES ==> r.value[name] == |a[name]|)
  {
    var source, target := AllDescribed(a, sha256), AllDescribed(b, sha256);
    assert Complete(source) && Complete(target);
    ReconciledMeansEqual(source, target);
    forall name | name in TABLES
      ensures HasCount(source, name) && source[name].count == Some(|a[name]|)
    {
      DescribedAreCounted(a, sha256, name);
    }
  }

  /** Two manifests reconcile if and only if every table holds the same multiset of (id, tenant)
      pairs, whatever the order of the rows, and the counts reported are the numbers of rows. */
  lemma ReconciliationIsExact(a: Records, b: Records, sha256: string -> string)
    requires Complete(a) && Complete(b)
    ensures var r := Reconciled(TABLES, ManifestFor(a, sha256).value, ManifestFor(b, sha256).value, map[]);
      && (SameRows(a, b) ==> r.Ok?)
      && (CollisionFree(sha256) && r.Ok? ==> SameRows(a, b))
      && (r.Ok? ==> Complete(r.value) && forall name :: name in TABLES ==> r.value[name] == |a[name]|)
  {
    DescribedReconcile(a, b, sha256);
    SameRowsMeansSameManifest(a, b, sha256);
  }
}
