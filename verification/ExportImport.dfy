/** The copy into a target: mapping file, reattribution, streaming in batches, one transaction. */
module ExportImport {
  import opened LegacyMapping
  import opened Reconcile
  import opened Text

  // ----- the mapping file

  /** A value in the file: a scalar, or anything else by the text `str` gives it. */
  datatype Value = Scalar(cell: Cell) | Nested(text: string)

  /** A section of the mapping file: an object, or some other JSON value. */
  datatype Json = Object(entries: map<string, Value>) | NotObject

  /** What reading the mapping file gives: nothing, an object, a string or list with these members and perhaps others
      that are not strings, or a value that has no members. */
  datatype MappingFile =
    | Unreadable
    | Sections(sections: map<string, Json>)
    | Members(members: set<string>, others: bool)
    | Memberless

  datatype Mapping = Mapping(tenantIds: IdMap, userSubjects: IdMap, reattributions: IdMap)

  const TENANT_IDS := "tenant_ids"
  const USER_SUBJECTS := "user_subjects"
  const REATTRIBUTIONS := "subject_reattributions"

  const REQUIRED: set<string> := {TENANT_IDS, USER_SUBJECTS}
  const KNOWN: set<string> := {TENANT_IDS, USER_SUBJECTS, REATTRIBUTIONS}

  function ValueText(v: Value): string {
    match v
    case Scalar(cell) => Str(cell)
    case Nested(text) => text
  }

  /** Every later use of a section's values is of their text. */
  function Texts(entries: map<string, Value>): IdMap {
    map k | k in entries :: ValueText(entries[k])
  }

  /** No source of a reattribution is mapped itself, and every target is. */
  predicate OneHop(reattributions: IdMap, userSubjects: IdMap) {
    forall user :: user in reattributions ==> user !in userSubjects && reattributions[user] in userSubjects
  }

  function SectionOf(sections: map<string, Json>, name: string): Json {
    if name in sections then sections[name] else Object(map[])
  }

  function Loaded(file: MappingFile): Result<Mapping> {
    match file
    case Unreadable => Err(MappingUnreadable)
    case Memberless => Err(NotAnObject)
    case Members(members, others) =>
      if !(REQUIRED <= members) then Err(SectionsMissing)
      else if KNOWN < members || (KNOWN == members && others) then Err(SectionsUnknown)
      else Err(NotAnObject)
    case Sections(sections) => LoadedSections(sections)
  }

  function LoadedSections(sections: map<string, Json>): Result<Mapping> {
    if !(REQUIRED <= sections.Keys) then Err(SectionsMissing)
    else if KNOWN < sections.Keys then Err(SectionsUnknown)
    else
      var tenantIds, userSubjects := SectionOf(sections, TENANT_IDS), SectionOf(sections, USER_SUBJECTS);
      var reattributions := SectionOf(sections, REATTRIBUTIONS);
      if !tenantIds.Object? || !userSubjects.Object? then Err(SectionsNotObjects)
      else if tenantIds.entries == map[] then Err(TenantsEmpty)
      else if !reattributions.Object? then Err(ReattributionsNotObject)
      else if !OneHop(Texts(reattributions.entries), Texts(userSubjects.entries)) then Err(BadReattribution)
      else Ok(Mapping(Texts(tenantIds.entries), Texts(userSubjects.entries), Texts(reattributions.entries)))
  }

  method LoadMapping(file: MappingFile) returns (r: Result<Mapping>)
    ensures r == Loaded(file)
    ensures r.Ok? ==> OneHop(r.value.reattributions, r.value.userSubjects) && r.value.tenantIds != map[]
  {
    if file.Unreadable? { return Err(MappingUnreadable); }
    if file.Memberless? { return Err(NotAnObject); }
    var members := if file.Members? then file.members else file.sections.Keys;
    if !(REQUIRED <= members) { return Err(SectionsMissing); }
    if KNOWN < members || (KNOWN == members && file.Members? && file.others) { return Err(SectionsUnknown); }
    if file.Members? { return Err(NotAnObject); }
    r := LoadSections(file.sections);
    if r.Ok? { LoadedKeepsTenants(file.sections); }
  }

  lemma LoadedKeepsTenants(sections: map<string, Json>)
    requires LoadedSections(sections).Ok?
    ensures LoadedSections(sections).value.tenantIds != map[]
  {
    var entries := SectionOf(sections, TENANT_IDS).entries;
    var k :| k in entries;
    assert k in Texts(entries);
  }

  method LoadSections(sections: map<string, Json>) returns (r: Result<Mapping>)
    requires REQUIRED <= sections.Keys && !(KNOWN < sections.Keys)
    ensures r == LoadedSections(sections)
  {
    var tenantIds, userSubjects := sections[TENANT_IDS], sections[USER_SUBJECTS];
    if !tenantIds.Object? || !userSubjects.Object? { return Err(SectionsNotObjects); }
    if tenantIds.entries == map[] { return Err(TenantsEmpty); }
    var reattributions := SectionOf(sections, REATTRIBUTIONS);
    if !reattributions.Object? { return Err(ReattributionsNotObject); }
    var oneHop := CheckReattributions(Texts(reattributions.entries), Texts(userSubjects.entries));
    if !oneHop { return Err(BadReattribution); }
    return Ok(Mapping(Texts(tenantIds.entries), Texts(userSubjects.entries), Texts(reattributions.entries)));
  }

  method CheckReattributions(reattributions: IdMap, userSubjects: IdMap) returns (ok: bool)
    ensures ok == OneHop(reattributions, userSubjects)
  {
    var rest := reattributions.Keys;
    while rest != {}
      invariant rest <= reattributions.Keys
      invariant forall user :: user in reattributions && user !in rest ==>
        user !in userSubjects && reattributions[user] in userSubjects
      decreases |rest|
    {
      var user :| user in rest;
      if user in userSubjects { return false; }
      if reattributions[user] !in userSubjects { return false; }
      rest := rest - {user};
    }
    ok := true;
  }

  /** Sections the tool does not know are refused exactly when the optional one is there, too; without it they are
      ignored. */
  lemma UnknownSectionsAreRefusedIff(sections: map<string, Json>, name: string)
    requires REQUIRED <= sections.Keys && name in sections && name !in KNOWN
    ensures LoadedSections(sections) == Err(SectionsUnknown) <==> REATTRIBUTIONS in sections
    ensures REATTRIBUTIONS !in sections ==> LoadedSections(sections) == LoadedSections(sections - {name})
  {
    var less := sections - {name};
    assert SectionOf(less, TENANT_IDS) == SectionOf(sections, TENANT_IDS);
    assert SectionOf(less, USER_SUBJECTS) == SectionOf(sections, USER_SUBJECTS);
    assert SectionOf(less, REATTRIBUTIONS) == SectionOf(sections, REATTRIBUTIONS);
  }

  // ----- reattribution

  function Hop(c: Cell, reattributions: IdMap): Cell {
    if c != Null && Str(c) in reattributions then Words(reattributions[Str(c)]) else c
  }

  function Reattributed(fields: seq<SubjectField>, row: Row, reattributions: IdMap): Row {
    if fields == [] then row
    else
      var source := fields[0].source;
      var hopped := Hop(Get(row, source), reattributions);
      Reattributed(fields[1..], if hopped == Get(row, source) then row else row[source := hopped], reattributions)
  }

  ghost predicate IsSource(c: Column, fields: seq<SubjectField>) {
    exists i :: 0 <= i < |fields| && fields[i].source == c
  }

  lemma IsSourceSplits(c: Column, fields: seq<SubjectField>)
    requires fields != []
    ensures IsSource(c, fields) <==> c == fields[0].source || IsSource(c, fields[1..])
  {}

  lemma {:induction false} ReattributedAt(fields: seq<SubjectField>, row: Row, mapping: Mapping, c: Column)
    requires OneHop(mapping.reattributions, mapping.userSubjects)
    ensures var moved := Reattributed(fields, row, mapping.reattributions);
      && (c in moved <==> c in row)
      && Get(moved, c) == if IsSource(c, fields) then Hop(Get(row, c), mapping.reattributions) else Get(row, c)
  {
    if fields != [] {
      var source := fields[0].source;
      var hopped := Hop(Get(row, source), mapping.reattributions);
      IsSourceSplits(c, fields);
      ReattributedAt(fields[1..], if hopped == Get(row, source) then row else row[source := hopped], mapping, c);
    }
  }

  /** Reattribution is one hop: doing it again changes nothing, and afterwards no user reference is
      a reattributed one. */
  lemma ReattributionIsOneHop(fields: seq<SubjectField>, row: Row, mapping: Mapping)
    requires OneHop(mapping.reattributions, mapping.userSubjects)
    ensures var moved := Reattributed(fields, row, mapping.reattributions);
      && Reattributed(fields, moved, mapping.reattributions) == moved
      && forall i :: 0 <= i < |fields| && Get(moved, fields[i].source) != Null ==>
           Str(Get(moved, fields[i].source)) !in mapping.reattributions
  {
    var moved := Reattributed(fields, row, mapping.reattributions);
    var again := Reattributed(fields, moved, mapping.reattributions);
    forall c ensures (c in again <==> c in moved) && Get(again, c) == Get(moved, c) {
      ReattributedAt(fields, row, mapping, c);
      ReattributedAt(fields, moved, mapping, c);
    }
    assert forall c <- again.Keys + moved.Keys :: SameAt(again, moved, c);
    EverywhereSame(again, moved);
    forall i | 0 <= i < |fields| && Get(moved, fields[i].source) != Null
      ensures Str(Get(moved, fields[i].source)) !in mapping.reattributions
    {
      ReattributedAt(fields, row, mapping, fields[i].source);
      assert IsSource(fields[i].source, fields);
    }
  }

  // ----- one row, and all rows of a table

  function Fields(name: TableName): seq<SubjectField> {
    if SubjectFields(name).Some? then SubjectFields(name).value else []
  }

  function ConvertRow(name: TableName, row: Row, mapping: Mapping): Result<Row> {
    MapRow(name, Reattributed(Fields(name), row, mapping.reattributions), mapping.tenantIds, mapping.userSubjects)
  }

  /** A row of a reattributed user goes to the subject of the user named in the file. */
  lemma ReattributedOwner(name: TableName, row: Row, mapping: Mapping, converted: Row, i: nat)
    requires OneHop(mapping.reattributions, mapping.userSubjects) && ConvertRow(name, row, mapping) == Ok(converted)
    requires i < |Fields(name)| && Get(row, Fields(name)[i].source) != Null
    requires Str(Get(row, Fields(name)[i].source)) in mapping.reattributions
    ensures var owner := mapping.reattributions[Str(Get(row, Fields(name)[i].source))];
      && owner in Normalised(mapping.userSubjects)
      && Get(converted, Fields(name)[i].target) == Words(Normalised(mapping.userSubjects)[owner])
  {
    var f, record := Fields(name)[i], Reattributed(Fields(name), row, mapping.reattributions);
    assert IsSource(f.source, Fields(name));
    ReattributedAt(Fields(name), row, mapping, f.source);
    ConvertedOwner(name, record, mapping, converted, i);
  }

  lemma ConvertedOwner(name: TableName, record: Row, mapping: Mapping, converted: Row, i: nat)
    requires MapRow(name, record, mapping.tenantIds, mapping.userSubjects) == Ok(converted) && i < |Fields(name)|
    ensures FieldDone(Fields(name)[i], record, converted, Normalised(mapping.userSubjects))
    ensures "" !in Normalised(mapping.userSubjects)
  {
    ConvertedMeansTranslated(name, record, mapping.tenantIds, mapping.userSubjects, converted);
    ValidatedMeansInjective(mapping.userSubjects, UserSubjects);
    assert Strip("") == "";
  }

  method Reattribute(name: TableName, row: Row, mapping: Mapping) returns (record: Row)
    ensures record == Reattributed(Fields(name), row, mapping.reattributions)
  {
    record := row;
    var fields := Fields(name);
    for i := 0 to |fields|
      invariant Reattributed(fields[i..], record, mapping.reattributions)
          == Reattributed(fields, row, mapping.reattributions)
    {
      assert fields[i..][1..] == fields[i + 1..];
      var value := Get(record, fields[i].source);
      if value != Null && Str(value) in mapping.reattributions {
        record := UpdateOwner(record, fields[i].source, Words(mapping.reattributions[Str(value)]));
      }
    }
  }

  function UpdateOwner(row: Row, c: Column, owner: Cell): Row {
    if owner == Get(row, c) then row else row[c := owner]
  }

  function Converter(name: TableName, mapping: Mapping): Row -> Result<Row> {
    row => ConvertRow(name, row, mapping)
  }

  /** The rows converted one by one, up to the first that is refused, and its error. */
  function ConvertAll(rows: seq<Row>, convert: Row -> Result<Row>): (seq<Row>, Option<GateError>) {
    if rows == [] then ([], None)
    else
      var before := ConvertAll(rows[..|rows| - 1], convert);
      var converted := convert(rows[|rows| - 1]);
      if before.1.Some? then before
      else if converted.Err? then (before.0, Some(converted.error))
      else (before.0 + [converted.value], None)
  }

  /** Conversion succeeds exactly when every row converts, and then row by row, in source order; it
      stops at the first row that is refused, with that row's error. */
  lemma {:induction false} ConvertAllIsRowByRow(rows: seq<Row>, convert: Row -> Result<Row>)
    ensures var r := ConvertAll(rows, convert);
      && |r.0| <= |rows|
      && (forall i :: 0 <= i < |r.0| ==> convert(rows[i]) == Ok(r.0[i]))
      && (r.1.None? ==> |r.0| == |rows|)
      && (r.1.Some? ==> |r.0| < |rows| && convert(rows[|r.0|]) == Err(r.1.value))
  {
    if rows != [] {
      ConvertAllIsRowByRow(rows[..|rows| - 1], convert);
    }
  }

  lemma {:induction false} FailureStops(rows: seq<Row>, n: nat, convert: Row -> Result<Row>)
    requires n <= |rows| && ConvertAll(rows[..n], convert).1.Some?
    ensures ConvertAll(rows, convert) == ConvertAll(rows[..n], convert)
  {
    if n < |rows| {
      var most := rows[..|rows| - 1];
      assert most[..n] == rows[..n];
      FailureStops(most, n, convert);
    } else {
      assert rows[..n] == rows;
    }
  }

  // ----- streaming

  const CHUNK_SIZE: nat := 1000

  /** Full batches, and a last one with whatever remains. */
  function Chunks(rows: seq<Row>): seq<seq<Row>> {
    if rows == [] then []
    else if |rows| <= CHUNK_SIZE then [rows]
    else [rows[..CHUNK_SIZE]] + Chunks(rows[CHUNK_SIZE..])
  }

  function Flatten(batches: seq<seq<Row>>): seq<Row> {
    if batches == [] then [] else Flatten(batches[..|batches| - 1]) + batches[|batches| - 1]
  }

  ghost predicate AllFull(batches: seq<seq<Row>>) {
    forall i :: 0 <= i < |batches| ==> |batches[i]| == CHUNK_SIZE
  }

  lemma {:induction false} FlattenCons(first: seq<Row>, batches: seq<seq<Row>>)
    ensures Flatten([first] + batches) == first + Flatten(batches)
  {
    var all := [first] + batches;
    if batches == [] {
      assert all[..0] == [];
    } else {
      var most := batches[..|batches| - 1];
      FlattenCons(first, most);
      assert all[..|all| - 1] == [first] + most;
    }
  }

  /** Full batches followed by a shorter, non-empty last one are the chunks of their concatenation. */
  lemma {:induction false} FullBatchesAreChunks(batches: seq<seq<Row>>, last: seq<Row>)
    requires AllFull(batches) && |last| < CHUNK_SIZE
    ensures Chunks(Flatten(batches) + last) == if last == [] then batches else batches + [last]
  {
    var whole := Flatten(batches) + last;
    if batches == [] {
      assert whole == last;
    } else {
      var first, rest := batches[0], batches[1..];
      assert batches == [first] + rest;
      FlattenCons(first, rest);
      assert whole[..CHUNK_SIZE] == first && whole[CHUNK_SIZE..] == Flatten(rest) + last;
      FullBatchesAreChunks(rest, last);
      if rest == [] && last == [] {
        assert whole == first;
      } else {
        FullLength(rest);
        assert |whole| > CHUNK_SIZE;
      }
    }
  }

  lemma {:induction false} FullLength(batches: seq<seq<Row>>)
    requires AllFull(batches)
    ensures |Flatten(batches)| >= |batches|
  {
    if batches != [] { FullLength(batches[..|batches| - 1]); }
  }

  /** Concatenated, the batches are the rows; none is empty; all but the last are full. */
  lemma {:induction false} ChunksPartition(rows: seq<Row>)
    ensures var batches := Chunks(rows);
      && Flatten(batches) == rows
      && (forall i :: 0 <= i < |batches| ==> 0 < |batches[i]| <= CHUNK_SIZE)
      && (forall i :: 0 <= i < |batches| - 1 ==> |batches[i]| == CHUNK_SIZE)
  {
    if |rows| > CHUNK_SIZE {
      ChunksPartition(rows[CHUNK_SIZE..]);
      FlattenCons(rows[..CHUNK_SIZE], Chunks(rows[CHUNK_SIZE..]));
    } else if rows != [] {
      assert [rows][..0] == [];
    }
  }

  /** What the generator yields: all chunks, or, when a row is refused, the full ones before it. */
  function Yielded(converted: (seq<Row>, Option<GateError>)): seq<seq<Row>> {
    if converted.1.None? then Chunks(converted.0) else FullChunks(converted.0)
  }

  function FullChunks(rows: seq<Row>): seq<seq<Row>> {
    if |rows| < CHUNK_SIZE then [] else [rows[..CHUNK_SIZE]] + FullChunks(rows[CHUNK_SIZE..])
  }

  lemma {:induction false} FullBatchesAreFullChunks(batches: seq<seq<Row>>, last: seq<Row>)
    requires AllFull(batches) && |last| < CHUNK_SIZE
    ensures FullChunks(Flatten(batches) + last) == batches
  {
    var whole := Flatten(batches) + last;
    if batches == [] {
      assert whole == last;
    } else {
      var first, rest := batches[0], batches[1..];
      assert batches == [first] + rest;
      FlattenCons(first, rest);
      assert whole[..CHUNK_SIZE] == first && whole[CHUNK_SIZE..] == Flatten(rest) + last;
      FullBatchesAreFullChunks(rest, last);
    }
  }

  lemma FlattenSnoc(batches: seq<seq<Row>>, last: seq<Row>)
    ensures Flatten(batches + [last]) == Flatten(batches) + last
  {}

  lemma ConvertOneMore(rows: seq<Row>, i: nat, convert: Row -> Result<Row>)
    requires i < |rows| && ConvertAll(rows[..i], convert).1.None?
    ensures convert(rows[i]).Ok? ==>
      ConvertAll(rows[..i + 1], convert) == (ConvertAll(rows[..i], convert).0 + [convert(rows[i]).value], None)
    ensures convert(rows[i]).Err? ==>
      ConvertAll(rows, convert) == (ConvertAll(rows[..i], convert).0, Some(convert(rows[i]).error))
  {
    assert rows[..i + 1][..i] == rows[..i];
    if convert(rows[i]).Err? { FailureStops(rows, i + 1, convert); }
  }

  /** The generator: the batches it yields, and the error that ends it, if one does. */
  method ConvertedBatches(name: TableName, rows: seq<Row>, mapping: Mapping)
    returns (batches: seq<seq<Row>>, error: Option<GateError>)
    ensures var converted := ConvertAll(rows, Converter(name, mapping));
      error == converted.1 && batches == Yielded(converted)
  {
    var buffer;
    batches, buffer, error := FillBatches(name, rows, mapping);
    if error.Some? {
      FullBatchesAreFullChunks(batches, buffer);
    } else {
      FullBatchesAreChunks(batches, buffer);
      if buffer != [] { batches := batches + [buffer]; }
    }
  }

  /** The loop of the generator; what it ends with still has to be flushed. */
  method FillBatches(name: TableName, rows: seq<Row>, mapping: Mapping)
    returns (batches: seq<seq<Row>>, buffer: seq<Row>, error: Option<GateError>)
    ensures ConvertAll(rows, Converter(name, mapping)).0 == Flatten(batches) + buffer
    ensures ConvertAll(rows, Converter(name, mapping)).1 == error
    ensures AllFull(batches) && |buffer| < CHUNK_SIZE
  {
    batches, buffer, error := [], [], None;
    ghost var convert := Converter(name, mapping);
    assert rows[..0] == [] && Flatten([]) + [] == [];
    for i := 0 to |rows|
      invariant ConvertAll(rows[..i], convert) == (Flatten(batches) + buffer, None)
      invariant AllFull(batches) && |buffer| < CHUNK_SIZE
    {
      var row := rows[i];
      ConvertOneMore(rows, i, convert);
      var converted := ConvertNext(name, row, mapping);
      if converted.Err? { return batches, buffer, Some(converted.error); }
      batches, buffer := Append(batches, buffer, converted.value);
    }
    assert rows[..|rows|] == rows;
  }

  method Append(yielded: seq<seq<Row>>, filled: seq<Row>, row: Row) returns (batches: seq<seq<Row>>, buffer: seq<Row>)
    requires AllFull(yielded) && |filled| < CHUNK_SIZE
    ensures AllFull(batches) && |buffer| < CHUNK_SIZE
    ensures Flatten(batches) + buffer == Flatten(yielded) + filled + [row]
  {
    batches, buffer := yielded, filled + [row];
    assert Flatten(yielded) + filled + [row] == Flatten(batches) + buffer;
    if |buffer| >= CHUNK_SIZE {
      FlattenSnoc(batches, buffer);
      batches, buffer := batches + [buffer], [];
    }
  }

  method ConvertNext(name: TableName, row: Row, mapping: Mapping) returns (r: Result<Row>)
    ensures r == Converter(name, mapping)(row)
  {
    var record := Reattribute(name, row, mapping);
    r := MapLegacyRow(name, record, mapping.tenantIds, mapping.userSubjects);
  }
}
