/** The import run: guards, one transaction over six tables, and the manifest that follows it. */
module GateC {
  import opened ExportImport
  import opened LegacyMapping
  import opened Reconcile
  import opened Text

  /** Whether the target, as the transaction has left it so far, takes a batch for a table: keys of this and of other
      tables, types, constraints. */
  type Acceptance = (Database, TableName, seq<Row>) -> bool

  /** `target` is where the target is looked for after the commit; the output file may exist already, and writing it may
      fail. */
  datatype ImportRequest = ImportRequest(
    source: Database, sameCredentials: bool, mappingFile: MappingFile, target: Location, manifestExists: bool,
    writable: bool)

  // ----- inserting

  function AfterBatches(accepts: Acceptance, db: Database, name: TableName, existing: seq<Row>,
                        batches: seq<seq<Row>>): Option<seq<Row>>
    decreases |batches|
  {
    if batches == [] then Some(existing)
    else if !accepts(db[name := existing], name, batches[0]) then None
    else AfterBatches(accepts, db, name, existing + batches[0], batches[1..])
  }

  function CopiedTable(accepts: Acceptance, db: Database, name: TableName, rows: seq<Row>, mapping: Mapping,
                       existing: seq<Row>): Result<seq<Row>> {
    var converted := ConvertAll(rows, Converter(name, mapping));
    var now := AfterBatches(accepts, db, name, existing, Yielded(converted));
    if now.None? then Err(InsertRejected(name))
    else if converted.1.Some? then Err(converted.1.value)
    else Ok(now.value)
  }

  function CopiedTables(accepts: Acceptance, names: seq<TableName>, source: Database, mapping: Mapping,
                        target: Database, counts: Counts): Result<(Database, Counts)>
    requires forall name :: name in names ==> name in source && name in target
  {
    if names == [] then Ok((target, counts))
    else
      var name := names[0];
      var now := CopiedTable(accepts, target, name, source[name], mapping, target[name]);
      if now.Err? then Err(now.error)
      else CopiedTables(accepts, names[1..], source, mapping, target[name := now.value], counts[name := |source[name]|])
  }

  lemma {:induction false} BatchesAppend(accepts: Acceptance, db: Database, name: TableName, existing: seq<Row>,
                                           batches: seq<seq<Row>>)
    requires AfterBatches(accepts, db, name, existing, batches).Some?
    ensures AfterBatches(accepts, db, name, existing, batches).value == existing + Flatten(batches)
    decreases |batches|
  {
    if batches != [] {
      BatchesAppend(accepts, db, name, existing + batches[0], batches[1..]);
      FlattenCons(batches[0], batches[1..]);
      assert batches == [batches[0]] + batches[1..];
    }
  }

  lemma CopiedTableAppends(accepts: Acceptance, db: Database, name: TableName, rows: seq<Row>, mapping: Mapping,
                           existing: seq<Row>)
    requires CopiedTable(accepts, db, name, rows, mapping, existing).Ok?
    ensures var converted := ConvertAll(rows, Converter(name, mapping));
      && converted.1.None? && |converted.0| == |rows|
      && CopiedTable(accepts, db, name, rows, mapping, existing).value == existing + converted.0
  {
    var converted := ConvertAll(rows, Converter(name, mapping));
    BatchesAppend(accepts, db, name, existing, Yielded(converted));
    ChunksPartition(converted.0);
    ConvertAllIsRowByRow(rows, Converter(name, mapping));
  }

  // ----- the run

  predicate HasTables(db: Database) {
    forall name :: name in TABLES ==> name in db
  }

  function Refusal(request: ImportRequest, target: Database): Option<GateError> {
    if request.sameCredentials then Some(SameCredentials)
    else if !HasTables(request.source) then Some(SourceIncomplete)
    else if !(target.Keys <= (set name | name in TABLES) + {AuditEvents, AlembicVersion}) then Some(TargetHasExtras)
    else if !HasTables(target) then Some(TargetIncomplete)
    else if AuditEvents in target && target[AuditEvents] != [] then Some(AuditNotEmpty)
    else None
  }

  /** The tables and counts that are committed, or why nothing is. */
  function Imported(request: ImportRequest, target: Database, accepts: Acceptance): Result<(Database, Counts)> {
    if Refusal(request, target).Some? then Err(Refusal(request, target).value)
    else
      var mapping := Loaded(request.mappingFile);
      if mapping.Err? then Err(mapping.error)
      else CopiedTables(accepts, TABLES, request.source, mapping.value, target, map[])
  }

  /** What the run reports once the copy is committed. */
  function Reported(request: ImportRequest, committed: Database, counts: Counts,
                    sha256: string -> string): Result<Counts> {
    var manifest := ManifestOf(request.target, committed, map[], sha256);
    if manifest.Err? then Err(manifest.error)
    else if request.manifestExists then Err(ManifestExists)
    else if !request.writable then Err(WriteFailed)
    else Ok(counts)
  }

  class Target {
    var tables: Database
    const accepts: Acceptance

    constructor (tables: Database, accepts: Acceptance)
      ensures this.tables == tables && this.accepts == accepts
    {
      this.tables, this.accepts := tables, accepts;
    }

    method CopyTable(db: Database, name: TableName, rows: seq<Row>, mapping: Mapping, existing: seq<Row>)
      returns (r: Result<seq<Row>>, inserted: nat)
      ensures r == CopiedTable(accepts, db, name, rows, mapping, existing)
      ensures r.Ok? ==> inserted == |rows|
    {
      var batches, error := ConvertedBatches(name, rows, mapping);
      var now := existing;
      inserted := 0;
      ghost var whole := AfterBatches(accepts, db, name, existing, batches);
      for i := 0 to |batches|
        invariant AfterBatches(accepts, db, name, now, batches[i..]) == whole
        invariant |now| == |existing| + inserted
      {
        var batch := batches[i];
        assert batches[i..][1..] == batches[i + 1..];
        if !accepts(db[name := now], name, batch) { return Err(InsertRejected(name)), inserted; }
        now := now + batch;
        inserted := inserted + |batch|;
      }
      if error.Some? { return Err(error.value), inserted; }
      r := Ok(now);
      CopiedTableAppends(accepts, db, name, rows, mapping, existing);
    }

    method CopyTables(names: seq<TableName>, source: Database, mapping: Mapping, target: Database)
      returns (r: Result<(Database, Counts)>)
      requires forall name :: name in names ==> name in source && name in target
      ensures r == CopiedTables(accepts, names, source, mapping, target, map[])
    {
      var pending, counts: Counts := target, map[];
      for i := 0 to |names|
        invariant forall name :: name in names ==> name in pending
        invariant CopiedTables(accepts, names[i..], source, mapping, pending, counts)
               == CopiedTables(accepts, names, source, mapping, target, map[])
      {
        assert names[i..][1..] == names[i + 1..];
        var now, inserted := CopyTable(pending, names[i], source[names[i]], mapping, pending[names[i]]);
        if now.Err? { return Err(now.error); }
        pending, counts := pending[names[i] := now.value], counts[names[i] := inserted];
      }
      r := Ok((pending, counts));
    }

    /** Nothing is written unless everything is; but the manifest is made after the commit, so a run can fail with the
        copy in place: `AfterImport.CommittedRunSucceedsIff`. */
    method ExportImport(request: ImportRequest, sha256: string -> string) returns (r: Result<Counts>,
                        written: Option<Manifest>)
      modifies this
      ensures var done := Imported(request, old(tables), accepts);
        && tables == (if done.Ok? then done.value.0 else old(tables))
        && r == (if done.Ok? then Reported(request, done.value.0, done.value.1, sha256) else Err(done.error))
      ensures written == if r.Ok? then Some(ManifestOf(request.target, tables, map[], sha256).value) else None
    {
      written := None;
      var refusal := Refusal(request, tables);
      if refusal.Some? { return Err(refusal.value), None; }
      var mapping := LoadMapping(request.mappingFile);
      if mapping.Err? { return Err(mapping.error), None; }
      var copied := CopyTables(TABLES, request.source, mapping.value, tables);
      if copied.Err? { return Err(copied.error), None; }
      tables := copied.value.0;
      var manifest := ManifestFromDatabase(request.target, tables, map[], sha256);
      if manifest.Err? { return Err(manifest.error), None; }
      if request.manifestExists { return Err(ManifestExists), None; }
      if !request.writable { return Err(WriteFailed), None; }
      return Ok(copied.value.1), Some(manifest.value);
    }
  }

  // ----- what a committed import is

  /** Every source row converted and appended in order; every count the number of source rows. */
  ghost predicate Copied(names: seq<TableName>, source: Database, mapping: Mapping, before: Database, after: Database,
                         counts: Counts)
    requires forall name :: name in names ==> name in source && name in before
  {
    && after.Keys == before.Keys
    && (forall name :: name in before && name !in names ==> after[name] == before[name])
    && (forall name :: name in names ==> TableCopied(name, source[name], mapping, before[name], after[name]))
    && (forall name :: name in names ==> name in counts && counts[name] == |source[name]|)
  }

  ghost predicate RowsConverted(name: TableName, rows: seq<Row>, mapping: Mapping, converted: seq<Row>) {
    |converted| == |rows| && forall i :: 0 <= i < |rows| ==> ConvertRow(name, rows[i], mapping) == Ok(converted[i])
  }

  ghost predicate TableCopied(name: TableName, rows: seq<Row>, mapping: Mapping, before: seq<Row>, after: seq<Row>) {
    before <= after && RowsConverted(name, rows, mapping, after[|before|..])
  }

  lemma CopiedTableIsCopied(accepts: Acceptance, db: Database, name: TableName, rows: seq<Row>, mapping: Mapping,
                            existing: seq<Row>)
    requires CopiedTable(accepts, db, name, rows, mapping, existing).Ok?
    ensures TableCopied(name, rows, mapping, existing, CopiedTable(accepts, db, name, rows, mapping, existing).value)
  {
    CopiedTableAppends(accepts, db, name, rows, mapping, existing);
    ConvertAllIsRowByRow(rows, Converter(name, mapping));
    var converted := ConvertAll(rows, Converter(name, mapping)).0;
    assert forall i :: 0 <= i < |rows| ==> Converter(name, mapping)(rows[i]) == Ok(converted[i]);
    assert (existing + converted)[|existing|..] == converted;
  }

  ghost predicate Distinct(names: seq<TableName>) {
    forall i, j :: 0 <= i < j < |names| ==> names[i] != names[j]
  }

  lemma {:induction false} CopiedTablesAreCopied(accepts: Acceptance, names: seq<TableName>, source: Database,
                                                 mapping: Mapping, target: Database, counts: Counts)
    requires Distinct(names) && forall name :: name in names ==> name in source && name in target
    requires CopiedTables(accepts, names, source, mapping, target, counts).Ok?
    ensures var r := CopiedTables(accepts, names, source, mapping, target, counts).value;
      && Copied(names, source, mapping, target, r.0, r.1)
      && r.1.Keys == counts.Keys + (set name | name in names)
      && (forall name :: name in counts && name !in names ==> r.1[name] == counts[name])
  {
    if names != [] {
      var name, rest := names[0], names[1..];
      var now := CopiedTable(accepts, target, name, source[name], mapping, target[name]).value;
      CopiedTableIsCopied(accepts, target, name, source[name], mapping, target[name]);
      assert name !in rest && forall n :: n in names <==> n == name || n in rest;
      CopiedTablesAreCopied(accepts, rest, source, mapping, target[name := now], counts[name := |source[name]|]);
    }
  }

  /** A committed import appends the row-by-row conversion of every source table, touches no other
      table, and counts every row; so one refused row in any table means nothing is committed. */
  lemma ImportIsComplete(request: ImportRequest, before: Database, accepts: Acceptance)
    requires Imported(request, before, accepts).Ok?
    ensures HasTables(request.source) && HasTables(before) && Loaded(request.mappingFile).Ok?
    ensures var r := Imported(request, before, accepts).value;
      && Copied(TABLES, request.source, Loaded(request.mappingFile).value, before, r.0, r.1)
      && Complete(r.1)
  {
    ImportedIsCopied(request, before, accepts);
    TablesAreDistinct();
    CopiedFromNothing(accepts, TABLES, request.source, Loaded(request.mappingFile).value, before);
  }

  lemma TablesAreDistinct()
    ensures Distinct(TABLES)
  {}

  lemma CopiedFromNothing(accepts: Acceptance, names: seq<TableName>, source: Database, mapping: Mapping,
                          target: Database)
    requires Distinct(names) && forall name :: name in names ==> name in source && name in target
    requires CopiedTables(accepts, names, source, mapping, target, map[]).Ok?
    ensures var r := CopiedTables(accepts, names, source, mapping, target, map[]).value;
      Copied(names, source, mapping, target, r.0, r.1) && r.1.Keys == set name | name in names
  {
    CopiedTablesAreCopied(accepts, names, source, mapping, target, map[]);
  }

  lemma ImportedIsCopied(request: ImportRequest, before: Database, accepts: Acceptance)
    requires Imported(request, before, accepts).Ok?
    ensures HasTables(request.source) && HasTables(before) && Loaded(request.mappingFile).Ok?
    ensures Imported(request, before, accepts)
         == CopiedTables(accepts, TABLES, request.source, Loaded(request.mappingFile).value, before, map[])
  {
  }

  /** One refused row, in any table and at any place, and nothing at all is committed. */
  lemma OneRefusedRowRefusesAll(request: ImportRequest, before: Database, accepts: Acceptance, name: TableName, i: nat)
    requires HasTables(request.source) && Loaded(request.mappingFile).Ok?
    requires name in TABLES && i < |request.source[name]|
    requires ConvertRow(name, request.source[name][i], Loaded(request.mappingFile).value).Err?
    ensures Imported(request, before, accepts).Err?
  {
    if Imported(request, before, accepts).Ok? {
      ImportIsComplete(request, before, accepts);
      var after := Imported(request, before, accepts).value.0;
      assert TableCopied(name, request.source[name], Loaded(request.mappingFile).value, before[name], after[name]);
    }
  }

  ghost predicate Willing(accepts: Acceptance) {
    forall db, name, batch :: accepts(db, name, batch)
  }

  ghost predicate AllConvert(name: TableName, rows: seq<Row>, mapping: Mapping) {
    forall i :: 0 <= i < |rows| ==> ConvertRow(name, rows[i], mapping).Ok?
  }

  lemma {:induction false} WillingInserts(accepts: Acceptance, db: Database, name: TableName, existing: seq<Row>,
                                          batches: seq<seq<Row>>)
    requires Willing(accepts)
    ensures AfterBatches(accepts, db, name, existing, batches).Some?
    decreases |batches|
  {
    if batches != [] { WillingInserts(accepts, db, name, existing + batches[0], batches[1..]); }
  }

  lemma WillingCopies(accepts: Acceptance, db: Database, name: TableName, rows: seq<Row>, mapping: Mapping,
                      existing: seq<Row>)
    requires Willing(accepts) && AllConvert(name, rows, mapping)
    ensures CopiedTable(accepts, db, name, rows, mapping, existing).Ok?
  {
    var convert := Converter(name, mapping);
    ConvertAllIsRowByRow(rows, convert);
    var converted := ConvertAll(rows, convert);
    WillingInserts(accepts, db, name, existing, Yielded(converted));
  }

  lemma {:induction false} WillingCopiesAll(accepts: Acceptance, names: seq<TableName>, source: Database,
                                            mapping: Mapping, target: Database, counts: Counts)
    requires forall name :: name in names ==> name in source && name in target
    requires Willing(accepts) && forall name :: name in names ==> AllConvert(name, source[name], mapping)
    ensures CopiedTables(accepts, names, source, mapping, target, counts).Ok?
  {
    if names != [] {
      var name := names[0];
      WillingCopies(accepts, target, name, source[name], mapping, target[name]);
      var now := CopiedTable(accepts, target, name, source[name], mapping, target[name]).value;
      WillingCopiesAll(accepts, names[1..], source, mapping, target[name := now], counts[name := |source[name]|]);
    }
  }

  /** Into a target that takes every row, an import is committed exactly when no guard refuses it, the mapping
      file loads, and every row of every table converts. */
  lemma ImportSucceedsIff(request: ImportRequest, before: Database, accepts: Acceptance)
    requires Willing(accepts)
    ensures Imported(request, before, accepts).Ok? <==>
      && Refusal(request, before).None? && Loaded(request.mappingFile).Ok?
      && forall name :: name in TABLES ==> AllConvert(name, request.source[name], Loaded(request.mappingFile).value)
  {
    if Refusal(request, before).None? && Loaded(request.mappingFile).Ok? {
      var mapping := Loaded(request.mappingFile).value;
      if Imported(request, before, accepts).Ok? {
        ImportIsComplete(request, before, accepts);
      }
      if forall name :: name in TABLES ==> AllConvert(name, request.source[name], mapping) {
        WillingCopiesAll(accepts, TABLES, request.source, mapping, before, map[]);
      }
    }
  }

  /** The guards spelled out: different credentials, all six tables on both sides, no foreign table in the target, and
      no audit rows there. */
  lemma NotRefusedIff(request: ImportRequest, target: Database)
    ensures Refusal(request, target).None? <==>
      && !request.sameCredentials
      && {Campaigns, Prospects, Analyses, Proposals, Policies, Suppressions} <= request.source.Keys
      && {Campaigns, Prospects, Analyses, Proposals, Policies, Suppressions} <= target.Keys
      && target.Keys <=
         {Campaigns, Prospects, Analyses, Proposals, Policies, Suppressions, AuditEvents, AlembicVersion}
      && (AuditEvents in target ==> target[AuditEvents] == [])
    ensures Refusal(request, target).Some? ==>
      Refusal(request, target).value ==
        if request.sameCredentials then SameCredentials
        else if !({Campaigns, Prospects, Analyses, Proposals, Policies, Suppressions} <= request.source.Keys)
        then SourceIncomplete
        else if exists name :: name in target.Keys && name !in {Campaigns, Prospects, Analyses, Proposals, Policies,
                                                               Suppressions, AuditEvents, AlembicVersion}
        then TargetHasExtras
        else if !({Campaigns, Prospects, Analyses, Proposals, Policies, Suppressions} <= target.Keys)
        then TargetIncomplete
        else AuditNotEmpty
  {
    TablesAreSix();
    SixTablesHeld(request.source);
    SixTablesHeld(target);
  }

  lemma TablesAreSix()
    ensures (set name | name in TABLES) == {Campaigns, Prospects, Analyses, Proposals, Policies, Suppressions}
  {}

  lemma SixTablesHeld(db: Database)
    ensures HasTables(db) <==> {Campaigns, Prospects, Analyses, Proposals, Policies, Suppressions} <= db.Keys
  {}
}
