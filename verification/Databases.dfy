/** What reconciling says about two databases: the rows themselves, as ids and owners, and nothing in between. */
module Databases {
  import opened Text
  import opened Order
  import opened LegacyMapping
  import opened ExportImport
  import opened Reconcile
  import opened GateC
  import opened AfterImport

  /** The owner of a row: its tenant under the mapping, or the tenant itself where the mapping does not know it. */
  function OwnerOf(row: Row, tenantIds: IdMap): string
    requires TenantId in row
  {
    var tenant := Str(row[TenantId]);
    if tenant in tenantIds then Strip(tenantIds[tenant]) else tenant
  }

  predicate HasIdentity(row: Row) {
    Id in row && TenantId in row
  }

  predicate AllHaveIdentity(rows: seq<Row>) {
    forall i :: 0 <= i < |rows| ==> HasIdentity(rows[i])
  }

  function IdentityOf(row: Row, tenantIds: IdMap): (string, string)
    requires HasIdentity(row)
  {
    (Str(row[Id]), OwnerOf(row, tenantIds))
  }

  /** The ids of the rows, each with its owner, as often as they occur. */
  function Identities(rows: seq<Row>, tenantIds: IdMap): multiset<(string, string)>
    requires AllHaveIdentity(rows)
  {
    if rows == [] then multiset{}
    else
      var last := rows[|rows| - 1];
      assert HasIdentity(last);
      Identities(rows[..|rows| - 1], tenantIds) + multiset{IdentityOf(last, tenantIds)}
  }

  ghost predicate IsIdentified(db: Database) {
    forall name :: name in {Campaigns, Prospects, Analyses, Proposals, Policies, Suppressions} ==>
      name in db && AllHaveIdentity(db[name])
  }

  /** Each of the six tables holds the same ids with the same owners in both databases, in any order. */
  ghost predicate SameIdentities(a: Database, aTenants: IdMap, b: Database, bTenants: IdMap)
    requires IsIdentified(a) && IsIdentified(b)
  {
    forall name :: name in {Campaigns, Prospects, Analyses, Proposals, Policies, Suppressions} ==>
      Identities(a[name], aTenants) == Identities(b[name], bTenants)
  }

  lemma SixTables(name: TableName)
    ensures name in TABLES <==> name in {Campaigns, Prospects, Analyses, Proposals, Policies, Suppressions}
  {}

  lemma MetadataIsIdentity(row: Row, tenantIds: IdMap)
    requires HasIdentity(row)
    ensures Metadata(row, Normalised(tenantIds)) == (Str(row[Id]), OwnerOf(row, tenantIds))
  {}

  lemma {:induction false} AllMetadataAreIdentities(rows: seq<Row>, tenantIds: IdMap)
    requires AllHaveIdentity(rows)
    ensures multiset(AllMetadata(rows, Normalised(tenantIds))) == Identities(rows, tenantIds)
  {
    if rows != [] {
      var n := |rows| - 1;
      AllMetadataAreIdentities(rows[..n], tenantIds);
      MetadataIsIdentity(rows[n], tenantIds);
      assert AllMetadata(rows, Normalised(tenantIds))
        == AllMetadata(rows[..n], Normalised(tenantIds)) + [(Str(rows[n][Id]), OwnerOf(rows[n], tenantIds))];
    }
  }

  lemma OwnersAreIdentified(rows: seq<Row>)
    ensures HasOwners(rows) <==> AllHaveIdentity(rows)
  {}

  lemma DatabaseIsIdentified(db: Database)
    ensures IsIdentified(db) <==> HasTables(db) && forall name :: name in TABLES ==> HasOwners(db[name])
  {
    forall name ensures name in TABLES <==>
      name in {Campaigns, Prospects, Analyses, Proposals, Policies, Suppressions}
    {
      SixTables(name);
    }
    forall name | name in TABLES && name in db
      ensures HasOwners(db[name]) <==> AllHaveIdentity(db[name])
    {
      OwnersAreIdentified(db[name]);
    }
  }

  lemma MappingIsStripped(tenantIds: IdMap)
    requires TenantMapping(tenantIds).Ok?
    ensures TenantMapping(tenantIds).value == Normalised(tenantIds)
  {
    ValidatedMeansInjective(tenantIds, TenantIds);
  }

  lemma ManifestSteps(at: Location, db: Database, tenantIds: IdMap, sha256: string -> string)
    ensures ManifestOf(at, db, tenantIds, sha256).Ok? <==>
      && Reads(at) && TenantMapping(tenantIds).Ok? && HasTables(db)
      && forall name :: name in TABLES ==> HasOwners(db[name])
  {
    if HasTables(db) { ManifestExistsFor(at, db, tenantIds, sha256); }
  }

  /** A manifest can be made exactly of a database that is found and answers, has the six tables and an id and a tenant
      in every row, under a mapping that is empty or usable. */
  lemma ManifestIsMadeIff(at: Location, db: Database, tenantIds: IdMap, sha256: string -> string)
    ensures ManifestOf(at, db, tenantIds, sha256).Ok? <==>
      && (at.url.scheme == "sqlite" && at.url.path !in {"", "/:memory:"} ==> at.url.path in at.files)
      && at.readable && (tenantIds == map[] || Validated(tenantIds, TenantIds).Ok?) && IsIdentified(db)
  {
    DatabaseIsIdentified(db);
    ManifestSteps(at, db, tenantIds, sha256);
  }

  lemma ManifestDescribes(at: Location, db: Database, tenantIds: IdMap, sha256: string -> string)
    requires ManifestOf(at, db, tenantIds, sha256).Ok?
    ensures HasTables(db) && IsIdentified(db)
    ensures ManifestOf(at, db, tenantIds, sha256).value
      == AllDescribed(Collected(db, TABLES, Normalised(tenantIds)), sha256)
  {
    DatabaseIsIdentified(db);
    ManifestSteps(at, db, tenantIds, sha256);
    MappingIsStripped(tenantIds);
    ManifestExistsFor(at, db, tenantIds, sha256);
  }

  lemma CollectedAreIdentities(db: Database, tenantIds: IdMap, name: TableName)
    requires IsIdentified(db) && HasTables(db)
    requires name in {Campaigns, Prospects, Analyses, Proposals, Policies, Suppressions}
    ensures name in Collected(db, TABLES, Normalised(tenantIds))
    ensures multiset(Collected(db, TABLES, Normalised(tenantIds))[name]) == Identities(db[name], tenantIds)
  {
    SixTables(name);
    AllMetadataAreIdentities(db[name], tenantIds);
  }

  lemma SameRowsMeansSameIdentities(a: Database, aTenants: IdMap, b: Database, bTenants: IdMap)
    requires IsIdentified(a) && IsIdentified(b) && HasTables(a) && HasTables(b)
    ensures SameRows(Collected(a, TABLES, Normalised(aTenants)), Collected(b, TABLES, Normalised(bTenants)))
        <==> SameIdentities(a, aTenants, b, bTenants)
  {
    var theirs, ours := Collected(a, TABLES, Normalised(aTenants)), Collected(b, TABLES, Normalised(bTenants));
    forall name ensures name in theirs <==>
      name in {Campaigns, Prospects, Analyses, Proposals, Policies, Suppressions}
    {
      SixTables(name);
    }
    forall name | name in theirs
      ensures multiset(theirs[name]) == Identities(a[name], aTenants)
      ensures multiset(ours[name]) == Identities(b[name], bTenants)
    {
      CollectedAreIdentities(a, aTenants, name);
      CollectedAreIdentities(b, bTenants, name);
    }
  }

  /** Two databases whose manifests can be made reconcile exactly when each of the six tables holds the same ids with
      the same owners, as long as the hash does not collide; that they then do reconcile needs nothing of the hash. */
  lemma DatabasesReconcileIff(at: Location, a: Database, aTenants: IdMap, to: Location, b: Database, bTenants: IdMap,
                              sha256: string -> string)
    requires ManifestOf(at, a, aTenants, sha256).Ok? && ManifestOf(to, b, bTenants, sha256).Ok?
    ensures IsIdentified(a) && IsIdentified(b)
    ensures Complete(ManifestOf(at, a, aTenants, sha256).value) && Complete(ManifestOf(to, b, bTenants, sha256).value)
    ensures var r := Reconciled(TABLES, ManifestOf(at, a, aTenants, sha256).value,
                                ManifestOf(to, b, bTenants, sha256).value, map[]);
      && (SameIdentities(a, aTenants, b, bTenants) ==> r.Ok?)
      && (CollisionFree(sha256) && r.Ok? ==> SameIdentities(a, aTenants, b, bTenants))
  {
    ManifestDescribes(at, a, aTenants, sha256);
    ManifestDescribes(to, b, bTenants, sha256);
    var theirs, ours := Collected(a, TABLES, Normalised(aTenants)), Collected(b, TABLES, Normalised(bTenants));
    ReconciliationIsExact(theirs, ours, sha256);
    SameRowsMeansSameIdentities(a, aTenants, b, bTenants);
  }

  // ----- a target that differs

  lemma {:induction false} IdentitiesOfConcat(a: seq<Row>, b: seq<Row>, tenantIds: IdMap)
    requires AllHaveIdentity(a) && AllHaveIdentity(b) && AllHaveIdentity(a + b)
    ensures Identities(a + b, tenantIds) == Identities(a, tenantIds) + Identities(b, tenantIds)
  {
    if b == [] {
      assert a + b == a;
    } else {
      var n := |b| - 1;
      assert (a + b)[..|a + b| - 1] == a + b[..n] && (a + b)[|a + b| - 1] == b[n];
      IdentitiesOfConcat(a, b[..n], tenantIds);
    }
  }

  lemma AroundOne(a: seq<Row>, row: Row, b: seq<Row>, tenantIds: IdMap)
    requires AllHaveIdentity(a) && HasIdentity(row) && AllHaveIdentity(b) && AllHaveIdentity(a + [row] + b)
    ensures Identities(a + [row] + b, tenantIds)
      == Identities(a, tenantIds) + multiset{IdentityOf(row, tenantIds)} + Identities(b, tenantIds)
  {
    assert [row][..0] == [];
    IdentitiesOfConcat(a + [row], b, tenantIds);
    IdentitiesOfConcat(a, [row], tenantIds);
  }

  lemma IdentitiesOfUpdate(rows: seq<Row>, i: nat, row: Row, tenantIds: IdMap)
    requires i < |rows| && HasIdentity(row) && AllHaveIdentity(rows) && HasIdentity(rows[i])
    ensures Identities(rows[i := row], tenantIds) + multiset{IdentityOf(rows[i], tenantIds)}
      == Identities(rows, tenantIds) + multiset{IdentityOf(row, tenantIds)}
  {
    var a, b := rows[..i], rows[i + 1..];
    assert rows == a + [rows[i]] + b && rows[i := row] == a + [row] + b;
    AroundOne(a, rows[i], b, tenantIds);
    AroundOne(a, row, b, tenantIds);
  }

  /** One row of one table is replaced by one with another id or another owner. */
  ghost predicate DiffersInOneRow(db: Database, other: Database, name: TableName, i: nat, row: Row)
    requires IsIdentified(db)
  {
    && name in {Campaigns, Prospects, Analyses, Proposals, Policies, Suppressions} && i < |db[name]|
    && HasIdentity(row) && HasIdentity(db[name][i]) && other == db[name := db[name][i := row]]
    && (Str(row[Id]) != Str(db[name][i][Id]) || Str(row[TenantId]) != Str(db[name][i][TenantId]))
  }

  lemma Exchanged<T>(a: multiset<T>, b: multiset<T>, x: T, y: T)
    requires x != y && a + multiset{x} == b + multiset{y}
    ensures a != b
  {
    assert (a + multiset{x})[x] == a[x] + 1 && (b + multiset{y})[x] == b[x];
  }

  lemma OneRowMatters(db: Database, other: Database, name: TableName, i: nat, row: Row)
    requires IsIdentified(db) && DiffersInOneRow(db, other, name, i, row)
    ensures IsIdentified(other)
    ensures Identities(other[name], map[]) != Identities(db[name], map[])
  {
    var was := db[name][i];
    IdentitiesOfUpdate(db[name], i, row, map[]);
    Exchanged(Identities(other[name], map[]), Identities(db[name], map[]),
              IdentityOf(was, map[]), IdentityOf(row, map[]));
  }

  /** After an import into empty tables that reconciles, a target in which a single row has another id or another owner
      does not. */
  lemma OneWrongRowIsFound(request: ImportRequest, before: Database, accepts: Acceptance, from: Location, to: Location,
                           sha256: string -> string, target: Database, name: TableName, i: nat, row: Row)
    requires Imported(request, before, accepts).Ok? && CollisionFree(sha256)
    requires Loaded(request.mappingFile).Ok? && HasTables(before) && Vacant(before)
    requires ManifestOf(from, request.source, Loaded(request.mappingFile).value.tenantIds, sha256).Ok?
    requires ManifestOf(to, Imported(request, before, accepts).value.0, map[], sha256).Ok?
    requires IsIdentified(Imported(request, before, accepts).value.0)
    requires DiffersInOneRow(Imported(request, before, accepts).value.0, target, name, i, row)
    ensures ManifestOf(to, target, map[], sha256).Ok?
    ensures var source := ManifestOf(from, request.source, Loaded(request.mappingFile).value.tenantIds, sha256).value;
      var ours := ManifestOf(to, target, map[], sha256).value;
      Complete(source) && Complete(ours) && Reconciled(TABLES, source, ours, map[]).Err?
  {
    var tenantIds, after := Loaded(request.mappingFile).value.tenantIds, Imported(request, before, accepts).value.0;
    ImportReconciles(request, before, accepts, from, to, sha256);
    DatabasesReconcileIff(from, request.source, tenantIds, to, after, map[], sha256);
    OneRowMatters(after, target, name, i, row);
    ManifestIsMadeIff(to, after, map[], sha256);
    ManifestIsMadeIff(to, target, map[], sha256);
    DatabasesReconcileIff(from, request.source, tenantIds, to, target, map[], sha256);
  }
}
