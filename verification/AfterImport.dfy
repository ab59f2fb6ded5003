/** What holds once an import is committed: source and target manifests reconcile, and the run may fail all the same. */
module AfterImport {
  import opened ExportImport
  import opened GateC
  import opened LegacyMapping
  import opened Reconcile
  import opened Text

  // ----- reconciliation after an import

  lemma IdentityIsUntouched(name: TableName)
    requires SubjectFields(name).Some?
    ensures !Touched(Id, Fields(name)) && !IsSource(Id, Fields(name)) && !IsSource(TenantId, Fields(name))
  {}

  /** A converted row has the metadata that the source manifest computes for the legacy row. */
  lemma SameMetadata(name: TableName, row: Row, mapping: Mapping, converted: Row)
    requires SubjectFields(name).Some? && OneHop(mapping.reattributions, mapping.userSubjects)
    requires ConvertRow(name, row, mapping) == Ok(converted)
    ensures Validated(mapping.tenantIds, TenantIds).Ok?
    ensures Metadata(converted, map[]) == Metadata(row, Normalised(mapping.tenantIds))
    ensures Id in row && TenantId in row && Id in converted && TenantId in converted
  {
    var fields := Fields(name);
    var record := Reattributed(fields, row, mapping.reattributions);
    IdentityIsUntouched(name);
    ReattributedAt(fields, row, mapping, Id);
    ReattributedAt(fields, row, mapping, TenantId);
    ConvertedMeansTranslated(name, record, mapping.tenantIds, mapping.userSubjects, converted);
    ValidatedMeansInjective(mapping.tenantIds, TenantIds);
    assert SameAt(record, converted, Id);
    assert TenantText(record) != "";
  }

  lemma SameTableMetadata(name: TableName, rows: seq<Row>, mapping: Mapping, converted: seq<Row>)
    requires SubjectFields(name).Some? && OneHop(mapping.reattributions, mapping.userSubjects)
    requires RowsConverted(name, rows, mapping, converted)
    ensures HasOwners(rows) && HasOwners(converted)
    ensures rows != [] ==> Validated(mapping.tenantIds, TenantIds).Ok?
    ensures AllMetadata(converted, map[]) == AllMetadata(rows, Normalised(mapping.tenantIds))
  {
    forall i | 0 <= i < |rows|
      ensures Metadata(converted[i], map[]) == Metadata(rows[i], Normalised(mapping.tenantIds))
      ensures Id in rows[i] && TenantId in rows[i] && Id in converted[i] && TenantId in converted[i]
    {
      SameMetadata(name, rows[i], mapping, converted[i]);
    }
    if rows != [] { SameMetadata(name, rows[0], mapping, converted[0]); }
  }

  lemma OwnersOfConcat(a: seq<Row>, b: seq<Row>)
    ensures HasOwners(a + b) <==> HasOwners(a) && HasOwners(b)
  {
    if HasOwners(a + b) {
      assert forall i :: 0 <= i < |a| ==> a[i] == (a + b)[i];
      assert forall i :: 0 <= i < |b| ==> b[i] == (a + b)[|a| + i];
    }
  }

  /** What one table's copy says about its manifests. */
  lemma TableFacts(name: TableName, rows: seq<Row>, mapping: Mapping, before: seq<Row>, after: seq<Row>)
    requires SubjectFields(name).Some? && OneHop(mapping.reattributions, mapping.userSubjects)
    requires TableCopied(name, rows, mapping, before, after)
    ensures HasOwners(rows) && (HasOwners(after) <==> HasOwners(before))
    ensures rows != [] ==> Validated(mapping.tenantIds, TenantIds).Ok?
    ensures |AllMetadata(after, map[])| == |AllMetadata(rows, Normalised(mapping.tenantIds))| + |before|
    ensures before == [] ==> AllMetadata(after, map[]) == AllMetadata(rows, Normalised(mapping.tenantIds))
  {
    var converted := after[|before|..];
    assert after == before + converted;
    SameTableMetadata(name, rows, mapping, converted);
    OwnersOfConcat(before, converted);
    if before == [] { assert after == converted; }
  }

  lemma {:induction false} OwnerlessMeans(db: Database, names: seq<TableName>)
    requires forall name :: name in names ==> name in db
    ensures Ownerless(db, names).None? <==> forall name :: name in names ==> HasOwners(db[name])
  {
    if names != [] {
      assert forall name :: name in names <==> name == names[0] || name in names[1..];
      OwnerlessMeans(db, names[1..]);
    }
  }

  /** The SQLite file, if it is one, is found, and the database answers. */
  predicate Reads(at: Location) {
    Found(at) && at.readable
  }

  lemma ManifestExistsFor(at: Location, db: Database, tenantIds: IdMap, sha256: string -> string)
    requires HasTables(db)
    ensures var m := ManifestOf(at, db, tenantIds, sha256);
      && (m.Ok? <==> Reads(at) && TenantMapping(tenantIds).Ok? && forall name :: name in TABLES ==> HasOwners(db[name]))
      && (m.Ok? ==> m.value == AllDescribed(Collected(db, TABLES, TenantMapping(tenantIds).value), sha256))
  {
    OwnerlessMeans(db, TABLES);
  }

  lemma LoadedIsOneHop(file: MappingFile)
    requires Loaded(file).Ok?
    ensures OneHop(Loaded(file).value.reattributions, Loaded(file).value.userSubjects)
    ensures Loaded(file).value.tenantIds != map[]
  {
    LoadedKeepsTenants(file.sections);
  }

  lemma SupportedTables(name: TableName)
    requires name in TABLES
    ensures SubjectFields(name).Some?
  {}

  ghost predicate Vacant(db: Database)
    requires HasTables(db)
  {
    forall name :: name in TABLES ==> db[name] == []
  }

  /** Records that only grow are described alike exactly where nothing was there before. */
  lemma GrownRecords(theirs: Records, ours: Records, before: Database, sha256: string -> string)
    requires theirs.Keys == ours.Keys && theirs.Keys <= before.Keys
    requires forall name :: name in theirs ==> |ours[name]| == |theirs[name]| + |before[name]|
    requires forall name :: name in theirs && before[name] == [] ==> ours[name] == theirs[name]
    ensures AllDescribed(theirs, sha256) == AllDescribed(ours, sha256)
        <==> forall name :: name in theirs ==> before[name] == []
  {
    var s, t := AllDescribed(theirs, sha256), AllDescribed(ours, sha256);
    if s == t {
      forall name | name in theirs ensures before[name] == [] {
        assert s[name].count == Some(|theirs[name]|) && t[name].count == Some(|ours[name]|);
      }
    }
    if forall name :: name in theirs ==> before[name] == [] {
      assert ours == theirs;
    }
  }

  lemma RecordsGrow(source: Database, mapping: Mapping, before: Database, after: Database, counts: Counts)
    requires HasTables(source) && HasTables(before) && HasTables(after)
    requires OneHop(mapping.reattributions, mapping.userSubjects)
        && Copied(TABLES, source, mapping, before, after, counts)
    ensures var theirs, ours := Collected(source, TABLES, Normalised(mapping.tenantIds)),
        Collected(after, TABLES, map[]);
      forall name :: name in theirs ==>
        && |ours[name]| == |theirs[name]| + |before[name]| && (before[name] == [] ==> ours[name] == theirs[name])
        && name in counts && |theirs[name]| == counts[name]
  {
    var theirs := Collected(source, TABLES, Normalised(mapping.tenantIds));
    forall name | name in theirs
      ensures |AllMetadata(after[name], map[])| == |theirs[name]| + |before[name]|
      ensures before[name] == [] ==> AllMetadata(after[name], map[]) == theirs[name]
      ensures |theirs[name]| == |source[name]|
    {
      SupportedTables(name);
      TableFacts(name, source[name], mapping, before[name], after[name]);
    }
  }

  lemma CopyReconciles(source: Database, mapping: Mapping, before: Database, after: Database, counts: Counts,
                       sha256: string -> string)
    requires HasTables(source) && HasTables(before) && HasTables(after) && Complete(counts)
    requires OneHop(mapping.reattributions, mapping.userSubjects)
        && Copied(TABLES, source, mapping, before, after, counts)
    ensures var theirs, ours := Collected(source, TABLES, Normalised(mapping.tenantIds)),
        Collected(after, TABLES, map[]);
      var r := Reconciled(TABLES, AllDescribed(theirs, sha256), AllDescribed(ours, sha256), map[]);
      (r.Ok? <==> Vacant(before)) && (r.Ok? ==> r.value == counts)
  {
    var theirs, ours := Collected(source, TABLES, Normalised(mapping.tenantIds)), Collected(after, TABLES, map[]);
    RecordsGrow(source, mapping, before, after, counts);
    GrownRecords(theirs, ours, before, sha256);
    DescribedReconcile(theirs, ours, sha256);
  }

  /** Import, then reconcile. After a committed import the source manifest, made with the same tenant mapping,
      reconciles with the target's exactly when all six target tables were empty before, and then the counts are those
      of the import. Rows left in the target make it fail, whatever the hash. Both manifests can be made from
      databases that can be read: the source's because a converted row proves the mapping valid (an import of no rows
      at all does not look at it), the target's unless it already had ownerless rows. */
  lemma ImportReconciles(request: ImportRequest, before: Database, accepts: Acceptance, from: Location, to: Location,
                         sha256: string -> string)
    requires Imported(request, before, accepts).Ok?
    ensures Loaded(request.mappingFile).Ok? && HasTables(before) && HasTables(request.source)
    ensures var done, mapping := Imported(request, before, accepts).value, Loaded(request.mappingFile).value;
      var source, target := ManifestOf(from, request.source, mapping.tenantIds, sha256),
          ManifestOf(to, done.0, map[], sha256);
      && (source.Ok? <==> Reads(from) && Validated(mapping.tenantIds, TenantIds).Ok?)
      && (!Vacant(request.source) ==> Validated(mapping.tenantIds, TenantIds).Ok?)
      && (target.Ok? <==> Reads(to) && forall name :: name in TABLES ==> HasOwners(before[name]))
      && (source.Ok? && target.Ok? ==>
            && Complete(source.value) && Complete(target.value)
            && (Reconciled(TABLES, source.value, target.value, map[]).Ok? <==> Vacant(before))
            && (Vacant(before) ==> Reconciled(TABLES, source.value, target.value, map[]) == Ok(done.1)))
  {
    var done, mapping := Imported(request, before, accepts).value, Loaded(request.mappingFile).value;
    ImportIsComplete(request, before, accepts);
    LoadedIsOneHop(request.mappingFile);
    SourceManifest(request.source, mapping, before, done.0, done.1, from, sha256);
    TargetManifest(request.source, mapping, before, done.0, done.1, to, sha256);
    CopyReconciles(request.source, mapping, before, done.0, done.1, sha256);
  }

  lemma SourceManifest(source: Database, mapping: Mapping, before: Database, after: Database, counts: Counts,
                       from: Location,
                       sha256: string -> string)
    requires HasTables(source) && HasTables(before) && mapping.tenantIds != map[]
    requires OneHop(mapping.reattributions, mapping.userSubjects)
        && Copied(TABLES, source, mapping, before, after, counts)
    ensures var m := ManifestOf(from, source, mapping.tenantIds, sha256);
      && (m.Ok? <==> Reads(from) && Validated(mapping.tenantIds, TenantIds).Ok?)
      && (!Vacant(source) ==> Validated(mapping.tenantIds, TenantIds).Ok?)
      && (m.Ok? ==> m.value == AllDescribed(Collected(source, TABLES, Normalised(mapping.tenantIds)), sha256))
  {
    OwnersCarryOver(source, mapping, before, after, counts);
    ManifestExistsFor(from, source, mapping.tenantIds, sha256);
    ValidatedMeansInjective(mapping.tenantIds, TenantIds);
  }

  lemma TargetManifest(source: Database, mapping: Mapping, before: Database, after: Database, counts: Counts,
                       to: Location,
                       sha256: string -> string)
    requires HasTables(source) && HasTables(before)
    requires OneHop(mapping.reattributions, mapping.userSubjects)
        && Copied(TABLES, source, mapping, before, after, counts)
    ensures var m := ManifestOf(to, after, map[], sha256);
      && (m.Ok? <==> Reads(to) && forall name :: name in TABLES ==> HasOwners(before[name]))
      && (m.Ok? ==> m.value == AllDescribed(Collected(after, TABLES, map[]), sha256))
  {
    OwnersCarryOver(source, mapping, before, after, counts);
    ManifestExistsFor(to, after, map[], sha256);
  }

  lemma OwnersCarryOver(source: Database, mapping: Mapping, before: Database, after: Database, counts: Counts)
    requires HasTables(source) && HasTables(before)
    requires OneHop(mapping.reattributions, mapping.userSubjects)
        && Copied(TABLES, source, mapping, before, after, counts)
    ensures HasTables(after)
    ensures forall name :: name in TABLES ==>
      HasOwners(source[name]) && (HasOwners(after[name]) <==> HasOwners(before[name]))
    ensures !Vacant(source) ==> Validated(mapping.tenantIds, TenantIds).Ok?
  {
    forall name | name in TABLES
      ensures HasOwners(source[name]) && (HasOwners(after[name]) <==> HasOwners(before[name]))
      ensures source[name] != [] ==> Validated(mapping.tenantIds, TenantIds).Ok?
    {
      SupportedTables(name);
      TableFacts(name, source[name], mapping, before[name], after[name]);
    }
  }

  // ----- failing after the commit

  /** A run whose copy is committed succeeds exactly when the target is found again and can be read, had no ownerless
      rows, and the output file is new and can be written. Otherwise it fails and the copy stays. */
  lemma CommittedRunSucceedsIff(request: ImportRequest, before: Database, accepts: Acceptance, sha256: string -> string)
    requires Imported(request, before, accepts).Ok?
    ensures HasTables(before)
    ensures var done := Imported(request, before, accepts).value;
      Reported(request, done.0, done.1, sha256).Ok? <==>
        && Reads(request.target) && (forall name :: name in TABLES ==> HasOwners(before[name]))
        && !request.manifestExists && request.writable
  {
    var done := Imported(request, before, accepts).value;
    ImportIsComplete(request, before, accepts);
    LoadedIsOneHop(request.mappingFile);
    TargetManifest(request.source, Loaded(request.mappingFile).value, before, done.0, done.1, request.target, sha256);
  }

  /** The SQLite file that is opened for a URL path: without its first slash, so relative to the working directory
      unless there is another one. */
  function Opened(path: string, directory: string): string
    requires path != ""
  {
    if "/" <= path[1..] then path[1..] else directory + "/" + path[1..]
  }

  /** Any committed copy into a relative SQLite target, however fresh, ends in an error unless a file of that name
      lies at the root: the file that was opened is not the one that is looked for. */
  lemma RelativeTargetFailsIff(request: ImportRequest, before: Database, accepts: Acceptance, name: string,
                               sha256: string -> string)
    requires Imported(request, before, accepts).Ok? && HasTables(before) && Vacant(before)
    requires request.target.url == Url("sqlite", "/" + name) && name != "" && name != ":memory:"
    requires request.target.readable && !request.manifestExists && request.writable
    ensures var done := Imported(request, before, accepts).value;
      if "/" + name in request.target.files then Reported(request, done.0, done.1, sha256) == Ok(done.1)
      else Reported(request, done.0, done.1, sha256) == Err(SqliteMissing)
  {
    CommittedRunSucceedsIff(request, before, accepts, sha256);
    assert ("/" + name)[1..] == name && ":memory:" == "/:memory:"[1..];
  }

  const EMPTY_TABLES: Database := map name | name in TABLES :: []

  /** One row of one table, owned by a mapped tenant and a mapped user. */
  const ONE_POLICY: Database :=
    EMPTY_TABLES[Policies := [map[Id := Words("p"), TenantId := Words("7"), UpdatedByUser := Words("u")]]]

  const ONE_MAPPING: MappingFile :=
    Sections(map[TENANT_IDS := Object(map["7" := Scalar(Words("t"))]),
                 USER_SUBJECTS := Object(map["u" := Scalar(Words("s"))])])

  /** `sqlite:///./nova.db`, opened in `/srv`. */
  const FRESH_IMPORT: ImportRequest :=
    ImportRequest(ONE_POLICY, false, ONE_MAPPING, Location(Url("sqlite", "/./nova.db"), {"/srv/./nova.db"}, true),
                  false, true)

  lemma ExampleLoads()
    ensures Loaded(ONE_MAPPING) == Ok(Mapping(map["7" := "t"], map["u" := "s"], map[]))
  {
    assert |TENANT_IDS| == 10 && |USER_SUBJECTS| == 13 && |REATTRIBUTIONS| == 22;
    var sections := ONE_MAPPING.sections;
    assert REATTRIBUTIONS !in sections && REATTRIBUTIONS in KNOWN && REQUIRED <= sections.Keys;
    assert sections[TENANT_IDS].entries["7"] == Scalar(Words("t"));
    assert Texts(sections[TENANT_IDS].entries) == map["7" := "t"];
    assert Texts(sections[USER_SUBJECTS].entries) == map["u" := "s"];
  }

  lemma SingleMappingIsValid(k: string, v: string, section: Section)
    requires Strip(k) != "" && v != "" && Strip(v) == v
    ensures Validated(map[k := v], section) == Ok(map[k := v])
  {
    var m: IdMap := map[k := v];
    assert k in m && Normalised(m) == m;
    ValidatedMeansInjective(m, section);
  }

  lemma ExampleMappingsAreValid()
    ensures Validated(map["7" := "t"], TenantIds) == Ok(map["7" := "t"])
    ensures Validated(map["u" := "s"], UserSubjects) == Ok(map["u" := "s"])
  {
    assert Strip("t") == "t" && Strip("s") == "s" && Strip("7") == "7" && Strip("u") == "u";
    assert |"t"| == |"s"| == |"7"| == |"u"| == 1;
    SingleMappingIsValid("7", "t", TenantIds);
    SingleMappingIsValid("u", "s", UserSubjects);
  }

  lemma OneRowConverts(mapping: Mapping)
    requires mapping == Mapping(map["7" := "t"], map["u" := "s"], map[])
    ensures ConvertRow(Policies, ONE_POLICY[Policies][0], mapping).Ok?
  {
    var row, fields := ONE_POLICY[Policies][0], Fields(Policies);
    assert Reattributed(fields, row, map[]) == row;
    ExampleMappingsAreValid();
    ExampleRowConverts(row, mapping);
  }

  lemma ExampleRowConverts(row: Row, mapping: Mapping)
    requires Id in row && row[Id] == Words("p") && TenantId in row && row[TenantId] == Words("7")
    requires Get(row, UpdatedByUser) == Words("u")
    requires Validated(mapping.tenantIds, TenantIds).Ok? && "7" in mapping.tenantIds
    requires Validated(mapping.userSubjects, UserSubjects).Ok? && "u" in mapping.userSubjects
    ensures MapRow(Policies, row, mapping.tenantIds, mapping.userSubjects).Ok?
  {
    assert |"p"| == 1;
    ValidMappings(Policies, row, mapping.tenantIds, mapping.userSubjects);
    OneOwnerConverts(UpdatedByUser, UpdatedBySubject, row, Normalised(mapping.tenantIds),
                     Normalised(mapping.userSubjects));
  }

  lemma OneOwnerConverts(source: Column, target: Column, row: Row, tenants: IdMap, subjects: IdMap)
    requires TenantText(row) in tenants && UserText(Get(row, source)) in subjects && Get(row, source) != Null
    ensures MapOwners([SubjectField(source, target, false)], row, tenants, subjects).Ok?
  {
    var fields, value := [SubjectField(source, target, false)], Get(row, source);
    var start := row[TenantId := Words(tenants[TenantText(row)])];
    var next := (start - {source})[target := Words(subjects[UserText(value)])];
    assert fields[0].source == source && fields[1..] == [];
    assert MapFields(fields, row, start, subjects) == MapFields([], row, next, subjects) == Ok(next);
  }

  lemma ExampleIsCommitted(accepts: Acceptance)
    requires Willing(accepts)
    ensures Imported(FRESH_IMPORT, EMPTY_TABLES, accepts).Ok?
    ensures var done := Imported(FRESH_IMPORT, EMPTY_TABLES, accepts).value;
      Policies in done.0 && |done.0[Policies]| == 1
  {
    ExampleLoads();
    ExampleConverts(Loaded(ONE_MAPPING).value);
    ImportSucceedsIff(FRESH_IMPORT, EMPTY_TABLES, accepts);
    OnePolicyIsCopied(accepts);
  }

  lemma ExampleConverts(mapping: Mapping)
    requires mapping == Mapping(map["7" := "t"], map["u" := "s"], map[])
    ensures HasTables(ONE_POLICY) && forall name :: name in TABLES ==> AllConvert(name, ONE_POLICY[name], mapping)
  {
    OneRowConverts(mapping);
  }

  lemma OnePolicyIsCopied(accepts: Acceptance)
    requires Imported(FRESH_IMPORT, EMPTY_TABLES, accepts).Ok?
    ensures var done := Imported(FRESH_IMPORT, EMPTY_TABLES, accepts).value;
      Policies in done.0 && |done.0[Policies]| == 1
  {
    ImportIsComplete(FRESH_IMPORT, EMPTY_TABLES, accepts);
    var done := Imported(FRESH_IMPORT, EMPTY_TABLES, accepts).value;
    assert Policies in TABLES;
    assert TableCopied(Policies, ONE_POLICY[Policies], Loaded(ONE_MAPPING).value, EMPTY_TABLES[Policies],
                       done.0[Policies]);
  }

  lemma ExampleIsNotFound()
    ensures !Found(FRESH_IMPORT.target) && Opened(FRESH_IMPORT.target.url.path, "/srv") in FRESH_IMPORT.target.files
  {
    assert |"/./nova.db"| == 10 && |"/srv/./nova.db"| == 14;
    assert "/./nova.db"[1..] == "./nova.db" && "./nova.db"[0] == '.';
    assert "/srv" + "/" + "./nova.db" == "/srv/./nova.db";
  }

  /** It happens: one row is copied into an empty target over `sqlite:///./nova.db`, the output file is new and could be
      written, the file that was opened is there, and the run ends in an error with the row in place. */
  lemma FreshTargetCanFail(accepts: Acceptance, sha256: string -> string)
    requires Willing(accepts)
    ensures Imported(FRESH_IMPORT, EMPTY_TABLES, accepts).Ok?
    ensures var done := Imported(FRESH_IMPORT, EMPTY_TABLES, accepts).value;
      && Policies in done.0 && |done.0[Policies]| == 1
      && Reported(FRESH_IMPORT, done.0, done.1, sha256) == Err(SqliteMissing)
  {
    ExampleIsCommitted(accepts);
    ExampleIsNotFound();
  }
}
