/** The fail-closed conversion of one legacy row: every owner is mapped explicitly or the row is refused. */
module LegacyMapping {
  import opened Text

  datatype TableName =
    | Campaigns | Prospects | Analyses | Proposals | Policies | Suppressions
    | AuditEvents | AlembicVersion | OtherTable(name: string)

  datatype Column =
    | Id | TenantId
    | CreatedByUser | AssignedUser | RequestedByUser | ApprovedByUser | UpdatedByUser
    | CreatedBySubject | AssignedSubject | RequestedBySubject | ApprovedBySubject | UpdatedBySubject
    | Payload(name: string)

  datatype Cell = Null | Number(n: int) | Words(text: string) | Flag(on: bool)

  type Row = map<Column, Cell>

  /** Legacy identifiers to new ones. */
  type IdMap = map<string, string>

  type Database = map<TableName, seq<Row>>

  /** The six tables that are copied and reconciled, in copying order. */
  const TABLES: seq<TableName> := [Campaigns, Prospects, Analyses, Proposals, Policies, Suppressions]

  datatype Section = TenantIds | UserSubjects

  datatype GateError =
    | UnsupportedTable | NoStableId | EmptyMapping(section: Section) | MappingNotUnique(section: Section)
    | NoTenant(source: string) | NoSubject(user: string)
    | SameCredentials | SourceIncomplete | TargetHasExtras | TargetIncomplete | AuditNotEmpty
    | MappingUnreadable | NotAnObject | SectionsMissing | SectionsUnknown | SectionsNotObjects | TenantsEmpty
    | ReattributionsNotObject | BadReattribution
    | InsertRejected(table: TableName) | ColumnsRequired(table: TableName)
    | SqliteMissing | DatabaseUnreadable | ManifestExists | WriteFailed
    | RecordsIncomplete | CountDiffers(table: TableName) | IdsDiffer(table: TableName)
    | OwnershipDiffers(table: TableName) | CountNotNatural(table: TableName)

  datatype Result<+T> = Ok(value: T) | Err(error: GateError)

  /** A user reference, the subject column that replaces it, and whether it may be null. */
  datatype SubjectField = SubjectField(source: Column, target: Column, nullable: bool)

  function SubjectFields(table: TableName): Option<seq<SubjectField>> {
    match table
    case Campaigns => Some([SubjectField(CreatedByUser, CreatedBySubject, false)])
    case Prospects => Some([SubjectField(AssignedUser, AssignedSubject, true)])
    case Analyses => Some([SubjectField(RequestedByUser, RequestedBySubject, false)])
    case Proposals => Some([SubjectField(CreatedByUser, CreatedBySubject, false),
                            SubjectField(ApprovedByUser, ApprovedBySubject, true)])
    case Policies => Some([SubjectField(UpdatedByUser, UpdatedBySubject, false)])
    case Suppressions => Some([SubjectField(CreatedByUser, CreatedBySubject, true)])
    case _ => None
  }

  // ----- Python's views of a cell

  function Digits(n: nat): string {
    if n < 10 then [('0' as int + n) as char] else Digits(n / 10) + [('0' as int + n % 10) as char]
  }

  function Str(c: Cell): string {
    match c
    case Null => "None"
    case Number(n) => if n < 0 then "-" + Digits(-n) else Digits(n)
    case Words(text) => text
    case Flag(on) => if on then "True" else "False"
  }

  predicate IsSet(c: Cell) {
    match c
    case Null => false
    case Number(n) => n != 0
    case Words(text) => text != ""
    case Flag(on) => on
  }

  function Get(row: Row, c: Column): Cell {
    if c in row then row[c] else Null
  }

  /** `str(row.get("tenant_id", ""))` */
  function TenantText(row: Row): string {
    if TenantId in row then Str(row[TenantId]) else ""
  }

  /** `str(value or "")` */
  function UserText(c: Cell): string {
    if IsSet(c) then Str(c) else ""
  }

  // ----- mappings

  function Normalised(m: IdMap): IdMap {
    map k | k in m :: Strip(m[k])
  }

  predicate NonEmpty(m: IdMap) {
    m != map[] && forall k :: k in m ==> Strip(k) != "" && m[k] != ""
  }

  function Validated(m: IdMap, section: Section): Result<IdMap> {
    var normalised := Normalised(m);
    if !NonEmpty(normalised) then Err(EmptyMapping(section))
    else if |normalised.Values| != |normalised| then Err(MappingNotUnique(section))
    else Ok(normalised)
  }

  ghost predicate Injective(m: IdMap) {
    forall j, k :: j in m && k in m && m[j] == m[k] ==> j == k
  }

  function Image(m: IdMap, keys: set<string>): set<string>
    requires keys <= m.Keys
  {
    set k | k in keys :: m[k]
  }

  lemma {:induction false} ImageSize(m: IdMap, keys: set<string>)
    requires keys <= m.Keys
    ensures |Image(m, keys)| <= |keys|
    ensures |Image(m, keys)| == |keys| <==> forall j, k :: j in keys && k in keys && m[j] == m[k] ==> j == k
  {
    if keys != {} {
      var a :| a in keys;
      var rest := keys - {a};
      ImageSize(m, rest);
      assert Image(m, keys) == Image(m, rest) + {m[a]};
      if m[a] in Image(m, rest) {
        var b :| b in rest && m[b] == m[a];
        assert Image(m, keys) == Image(m, rest);
      } else {
        assert forall k :: k in rest ==> m[k] in Image(m, rest);
      }
    }
  }

  /** Counting distinct targets is a test for injectivity, so a mapping passes exactly when no
      identifier is blank and no two legacy identifiers share a target once the targets are stripped. */
  lemma ValidatedMeansInjective(m: IdMap, section: Section)
    ensures Validated(m, section).Ok? <==> NonEmpty(Normalised(m)) && Injective(Normalised(m))
    ensures Validated(m, section).Ok? ==> Validated(m, section).value == Normalised(m)
  {
    var n := Normalised(m);
    ImageSize(n, n.Keys);
    assert n.Values == Image(n, n.Keys);
    assert |n| == |n.Keys|;
  }

  // ----- one row

  function MapFields(fields: seq<SubjectField>, row: Row, converted: Row, subjects: IdMap): Result<Row> {
    if fields == [] then Ok(converted)
    else
      var f, value := fields[0], Get(row, fields[0].source);
      var dropped := converted - {f.source};
      if value.Null? && f.nullable then MapFields(fields[1..], row, dropped[f.target := Null], subjects)
      else if UserText(value) !in subjects then Err(NoSubject(UserText(value)))
      else MapFields(fields[1..], row, dropped[f.target := Words(subjects[UserText(value)])], subjects)
  }

  /** Conversion with mappings already validated. */
  function MapOwners(fields: seq<SubjectField>, row: Row, tenants: IdMap, subjects: IdMap): Result<Row> {
    if TenantText(row) !in tenants then Err(NoTenant(TenantText(row)))
    else MapFields(fields, row, row[TenantId := Words(tenants[TenantText(row)])], subjects)
  }

  function MapRow(table: TableName, row: Row, tenantIds: IdMap, userSubjects: IdMap): Result<Row> {
    if SubjectFields(table).None? then Err(UnsupportedTable)
    else if !IsSet(Get(row, Id)) then Err(NoStableId)
    else
      var tenants, subjects := Validated(tenantIds, TenantIds), Validated(userSubjects, UserSubjects);
      if tenants.Err? then Err(tenants.error)
      else if subjects.Err? then Err(subjects.error)
      else MapOwners(SubjectFields(table).value, row, tenants.value, subjects.value)
  }

  method MapLegacyRow(table: TableName, row: Row, tenantIds: IdMap, userSubjects: IdMap)
    returns (r: Result<Row>)
    ensures r == MapRow(table, row, tenantIds, userSubjects)
  {
    var fields := SubjectFields(table);
    if fields.None? { return Err(UnsupportedTable); }
    if !IsSet(Get(row, Id)) { return Err(NoStableId); }
    var tenants := Validated(tenantIds, TenantIds);
    if tenants.Err? { return Err(tenants.error); }
    var subjects := Validated(userSubjects, UserSubjects);
    if subjects.Err? { return Err(subjects.error); }
    r := ConvertOwners(fields.value, row, tenants.value, subjects.value);
  }

  method ConvertOwners(fields: seq<SubjectField>, row: Row, tenants: IdMap, subjects: IdMap)
    returns (r: Result<Row>)
    ensures r == MapOwners(fields, row, tenants, subjects)
  {
    var sourceTenant := TenantText(row);
    if sourceTenant !in tenants { return Err(NoTenant(sourceTenant)); }
    var converted := row[TenantId := Words(tenants[sourceTenant])];
    for i := 0 to |fields|
      invariant MapFields(fields[i..], row, converted, subjects) == MapOwners(fields, row, tenants, subjects)
    {
      var f := fields[i];
      assert fields[i..][1..] == fields[i + 1..];
      var sourceValue := Get(row, f.source);
      converted := converted - {f.source};
      if sourceValue.Null? && f.nullable {
        converted := converted[f.target := Null];
        continue;
      }
      var sourceUser := UserText(sourceValue);
      if sourceUser !in subjects { return Err(NoSubject(sourceUser)); }
      converted := converted[f.target := Words(subjects[sourceUser])];
    }
    return Ok(converted);
  }

  // ----- what a conversion is

  /** The user reference `f` of `row` has a subject, or is null where that is allowed; `subject` is the result. */
  ghost predicate Owned(f: SubjectField, row: Row, subject: Cell, subjects: IdMap) {
    var value := Get(row, f.source);
    if value.Null? && f.nullable then subject == Null
    else UserText(value) in subjects && subject == Words(subjects[UserText(value)])
  }

  ghost predicate FieldDone(f: SubjectField, row: Row, converted: Row, subjects: IdMap) {
    f.source !in converted && f.target in converted && Owned(f, row, converted[f.target], subjects)
  }

  ghost predicate Touched(c: Column, fields: seq<SubjectField>) {
    exists i :: 0 <= i < |fields| && (c == fields[i].source || c == fields[i].target)
  }

  ghost predicate SameAt(a: Row, b: Row, c: Column) {
    (c in a <==> c in b) && Get(a, c) == Get(b, c)
  }

  /** `converted` is `row` with the tenant and every user reference replaced by its image, and
      nothing else touched. */
  ghost predicate Translates(fields: seq<SubjectField>, row: Row, converted: Row, tenants: IdMap, subjects: IdMap) {
    && TenantText(row) in tenants && TenantId in converted && converted[TenantId] == Words(tenants[TenantText(row)])
    && (forall i :: 0 <= i < |fields| ==> FieldDone(fields[i], row, converted, subjects))
    && (forall c :: c != TenantId && !Touched(c, fields) ==> SameAt(row, converted, c))
  }

  /** No field of a list reads or writes a column that another one writes, or the tenant. */
  ghost predicate Separate(fields: seq<SubjectField>) {
    && (forall i :: 0 <= i < |fields| ==> fields[i].source != TenantId && fields[i].target != TenantId)
    && (forall i, j :: 0 <= i < |fields| && 0 <= j < |fields| ==> fields[i].source != fields[j].target)
    && (forall i, j :: 0 <= i < j < |fields| ==>
          fields[i].target != fields[j].target && fields[i].source != fields[j].source)
  }

  lemma FieldsAreSeparate(table: TableName)
    requires SubjectFields(table).Some?
    ensures Separate(SubjectFields(table).value)
  {}

  ghost predicate FieldsDone(fields: seq<SubjectField>, row: Row, start: Row, converted: Row, subjects: IdMap) {
    && (forall i :: 0 <= i < |fields| ==> FieldDone(fields[i], row, converted, subjects))
    && (forall c :: !Touched(c, fields) ==> SameAt(start, converted, c))
  }

  lemma EverywhereSame(a: Row, b: Row)
    requires forall c <- a.Keys + b.Keys :: SameAt(a, b, c)
    ensures a == b
  {
    assert forall c <- a.Keys + b.Keys :: (c in a <==> c in b) && Get(a, c) == Get(b, c);
  }

  lemma {:induction false} MapFieldsMeaning(fields: seq<SubjectField>, row: Row, start: Row, subjects: IdMap,
                                            converted: Row)
    requires Separate(fields)
    ensures MapFields(fields, row, start, subjects) == Ok(converted)
        <==> FieldsDone(fields, row, start, converted, subjects)
  {
    if fields == [] {
      if FieldsDone(fields, row, start, converted, subjects) {
        assert forall c <- start.Keys + converted.Keys :: !Touched(c, fields);
        EverywhereSame(start, converted);
      }
    } else {
      var f, rest, value := fields[0], fields[1..], Get(row, fields[0].source);
      assert forall i :: 0 <= i < |rest| ==> rest[i] == fields[i + 1];
      if (value.Null? && f.nullable) || UserText(value) in subjects {
        var subject := if value.Null? && f.nullable then Null else Words(subjects[UserText(value)]);
        var next := (start - {f.source})[f.target := subject];
        MapFieldsMeaning(rest, row, next, subjects, converted);
        FieldStep(fields, row, start, next, subjects, converted, subject);
      } else {
        assert !Owned(f, row, Null, subjects);
      }
    }
  }

  lemma TouchedSplits(c: Column, fields: seq<SubjectField>)
    requires fields != []
    ensures Touched(c, fields) <==> c == fields[0].source || c == fields[0].target || Touched(c, fields[1..])
  {}

  lemma FieldStep(fields: seq<SubjectField>, row: Row, start: Row, next: Row, subjects: IdMap, converted: Row,
                  subject: Cell)
    requires Separate(fields) && fields != [] && Owned(fields[0], row, subject, subjects)
    requires next == (start - {fields[0].source})[fields[0].target := subject]
    ensures FieldsDone(fields[1..], row, next, converted, subjects)
        <==> FieldsDone(fields, row, start, converted, subjects)
  {
    if FieldsDone(fields[1..], row, next, converted, subjects) {
      FieldStepBack(fields, row, start, next, subjects, converted, subject);
    }
    if FieldsDone(fields, row, start, converted, subjects) {
      FieldStepOn(fields, row, start, next, subjects, converted, subject);
    }
  }

  lemma FieldStepBack(fields: seq<SubjectField>, row: Row, start: Row, next: Row, subjects: IdMap, converted: Row,
                      subject: Cell)
    requires Separate(fields) && fields != [] && Owned(fields[0], row, subject, subjects)
    requires next == (start - {fields[0].source})[fields[0].target := subject]
    requires FieldsDone(fields[1..], row, next, converted, subjects)
    ensures FieldsDone(fields, row, start, converted, subjects)
  {
    var f, rest := fields[0], fields[1..];
    assert !Touched(f.source, rest) && !Touched(f.target, rest);
    assert SameAt(next, converted, f.source) && SameAt(next, converted, f.target);
    forall i | 0 <= i < |fields| ensures FieldDone(fields[i], row, converted, subjects) {
      if i > 0 { assert fields[i] == rest[i - 1]; }
    }
    forall c | !Touched(c, fields) ensures SameAt(start, converted, c) {
      TouchedSplits(c, fields);
      assert SameAt(next, converted, c);
    }
  }

  lemma FieldStepOn(fields: seq<SubjectField>, row: Row, start: Row, next: Row, subjects: IdMap, converted: Row,
                    subject: Cell)
    requires Separate(fields) && fields != [] && Owned(fields[0], row, subject, subjects)
    requires next == (start - {fields[0].source})[fields[0].target := subject]
    requires FieldsDone(fields, row, start, converted, subjects)
    ensures FieldsDone(fields[1..], row, next, converted, subjects)
  {
    var f, rest := fields[0], fields[1..];
    forall i | 0 <= i < |rest| ensures FieldDone(rest[i], row, converted, subjects) {
      assert rest[i] == fields[i + 1];
    }
    assert FieldDone(fields[0], row, converted, subjects);
    forall c | !Touched(c, rest) ensures SameAt(next, converted, c) {
      TouchedSplits(c, fields);
      if c != f.source && c != f.target { assert SameAt(start, converted, c); }
    }
  }

  lemma OwnersMeaning(fields: seq<SubjectField>, row: Row, tenants: IdMap, subjects: IdMap, converted: Row)
    requires Separate(fields)
    ensures MapOwners(fields, row, tenants, subjects) == Ok(converted)
        <==> Translates(fields, row, converted, tenants, subjects)
  {
    if TenantText(row) in tenants {
      var start := row[TenantId := Words(tenants[TenantText(row)])];
      MapFieldsMeaning(fields, row, start, subjects, converted);
      assert !Touched(TenantId, fields);
      if FieldsDone(fields, row, start, converted, subjects) {
        assert SameAt(start, converted, TenantId);
        forall c | c != TenantId && !Touched(c, fields) ensures SameAt(row, converted, c) {
          assert SameAt(start, converted, c);
        }
      }
      if Translates(fields, row, converted, tenants, subjects) {
        forall c | !Touched(c, fields) ensures SameAt(start, converted, c) {
          if c != TenantId { assert SameAt(row, converted, c); }
        }
      }
    }
  }

  lemma ValidMappings(table: TableName, row: Row, tenantIds: IdMap, userSubjects: IdMap)
    requires SubjectFields(table).Some? && IsSet(Get(row, Id))
    requires Validated(tenantIds, TenantIds).Ok? && Validated(userSubjects, UserSubjects).Ok?
    ensures MapRow(table, row, tenantIds, userSubjects)
         == MapOwners(SubjectFields(table).value, row, Normalised(tenantIds), Normalised(userSubjects))
  {}

  /** A row converts to `converted` exactly when its table is one of the six, it has an id, both
      mappings are valid, and `converted` is its translation. */
  lemma ConvertedMeansTranslated(table: TableName, row: Row, tenantIds: IdMap, userSubjects: IdMap, converted: Row)
    ensures MapRow(table, row, tenantIds, userSubjects) == Ok(converted) <==>
      && SubjectFields(table).Some? && IsSet(Get(row, Id))
      && Validated(tenantIds, TenantIds).Ok? && Validated(userSubjects, UserSubjects).Ok?
      && Translates(SubjectFields(table).value, row, converted, Normalised(tenantIds), Normalised(userSubjects))
  {
    if SubjectFields(table).Some? && IsSet(Get(row, Id)) && Validated(tenantIds, TenantIds).Ok?
        && Validated(userSubjects, UserSubjects).Ok? {
      FieldsAreSeparate(table);
      ValidMappings(table, row, tenantIds, userSubjects);
      OwnersMeaning(SubjectFields(table).value, row, Normalised(tenantIds), Normalised(userSubjects), converted);
    }
  }

  // ----- going back

  function Inverse(m: IdMap): IdMap
    requires Injective(m)
  {
    map k | k in m.Keys :: m[k] := k
  }

  function CanonicalOwner(f: SubjectField, row: Row): Cell {
    var value := Get(row, f.source);
    if value.Null? && f.nullable then Null else Words(UserText(value))
  }

  /** The legacy row as far as the conversion can know it: identifiers in string form, a missing
      nullable reference as null, and without the columns the conversion creates. */
  function Canonical(fields: seq<SubjectField>, row: Row): Row {
    if fields == [] then row[TenantId := Words(TenantText(row))]
    else
      var f := fields[|fields| - 1];
      (Canonical(fields[..|fields| - 1], row) - {f.target})[f.source := CanonicalOwner(f, row)]
  }

  function OldOwner(f: SubjectField, converted: Row, users: IdMap): Cell {
    var value := Get(converted, f.target);
    if value.Words? && value.text in users then Words(users[value.text]) else Null
  }

  /** The conversion undone, with the two mappings read backwards. */
  function Unmapped(fields: seq<SubjectField>, converted: Row, tenants: IdMap, users: IdMap): Row {
    if fields == [] then
      if TenantText(converted) in tenants then converted[TenantId := Words(tenants[TenantText(converted)])]
          else converted
    else
      var f := fields[|fields| - 1];
      var before := Unmapped(fields[..|fields| - 1], converted, tenants, users);
      (before - {f.target})[f.source := OldOwner(f, converted, users)]
  }

  lemma InverseUndoes(m: IdMap, k: string)
    requires Injective(m) && k in m
    ensures m[k] in Inverse(m) && Inverse(m)[m[k]] == k
  {}

  lemma RestoreStep(f: SubjectField, there: Row, back: Row, owner: Cell, c: Column)
    requires f.source != f.target
    requires c == f.source || c == f.target || SameAt(there, back, c)
    ensures SameAt((there - {f.target})[f.source := owner], (back - {f.target})[f.source := owner], c)
  {}

  lemma TouchedBefore(c: Column, fields: seq<SubjectField>, n: nat)
    requires 0 < n <= |fields| && Touched(c, fields[..n]) && c != fields[n - 1].source && c != fields[n - 1].target
    ensures Touched(c, fields[..n - 1])
  {}

  lemma {:induction false} UnmappedIsCanonical(fields: seq<SubjectField>, n: nat, row: Row, converted: Row,
                                               tenants: IdMap, subjects: IdMap, c: Column)
    requires n <= |fields| && Separate(fields) && Injective(tenants) && Injective(subjects)
    requires Translates(fields, row, converted, tenants, subjects)
    requires c == TenantId || Touched(c, fields[..n]) || !Touched(c, fields)
    ensures SameAt(Canonical(fields[..n], row), Unmapped(fields[..n], converted, Inverse(tenants), Inverse(subjects)),
                   c)
  {
    if n == 0 {
      InverseUndoes(tenants, TenantText(row));
      if c != TenantId { assert SameAt(row, converted, c); }
    } else {
      var f, rest := fields[n - 1], fields[..n - 1];
      assert fields[..n][..n - 1] == rest && fields[..n][n - 1] == f;
      if c != f.source && c != f.target {
        if Touched(c, fields[..n]) { TouchedBefore(c, fields, n); }
        UnmappedIsCanonical(fields, n - 1, row, converted, tenants, subjects, c);
      }
      assert FieldDone(fields[n - 1], row, converted, subjects);
      OwnerRestored(f, row, converted, subjects);
      RestoreStep(f, Canonical(rest, row), Unmapped(rest, converted, Inverse(tenants), Inverse(subjects)),
                  CanonicalOwner(f, row), c);
    }
  }

  lemma OwnerRestored(f: SubjectField, row: Row, converted: Row, subjects: IdMap)
    requires FieldDone(f, row, converted, subjects) && Injective(subjects)
    ensures OldOwner(f, converted, Inverse(subjects)) == CanonicalOwner(f, row)
  {}

  lemma OwnersRestored(fields: seq<SubjectField>, row: Row, converted: Row, tenants: IdMap, subjects: IdMap)
    requires Separate(fields) && Injective(tenants) && Injective(subjects)
    requires Translates(fields, row, converted, tenants, subjects)
    ensures Unmapped(fields, converted, Inverse(tenants), Inverse(subjects)) == Canonical(fields, row)
  {
    var n := |fields|;
    assert fields[..n] == fields;
    var there, back := Canonical(fields, row), Unmapped(fields, converted, Inverse(tenants), Inverse(subjects));
    forall c <- there.Keys + back.Keys ensures SameAt(there, back, c) {
      UnmappedIsCanonical(fields, n, row, converted, tenants, subjects, c);
    }
    EverywhereSame(there, back);
  }

  /** Conversion loses nothing but the form of the identifiers: the legacy row is computed back from
      the converted one and the two mappings. */
  lemma ConversionIsInvertible(table: TableName, row: Row, tenantIds: IdMap, userSubjects: IdMap, converted: Row)
    requires MapRow(table, row, tenantIds, userSubjects) == Ok(converted)
    ensures Injective(Normalised(tenantIds)) && Injective(Normalised(userSubjects)) && SubjectFields(table).Some?
    ensures Unmapped(SubjectFields(table).value, converted, Inverse(Normalised(tenantIds)),
                     Inverse(Normalised(userSubjects)))
         == Canonical(SubjectFields(table).value, row)
  {
    ValidatedMeansInjective(tenantIds, TenantIds);
    ValidatedMeansInjective(userSubjects, UserSubjects);
    ConvertedMeansTranslated(table, row, tenantIds, userSubjects, converted);
    FieldsAreSeparate(table);
    OwnersRestored(SubjectFields(table).value, row, converted, Normalised(tenantIds), Normalised(userSubjects));
  }
}
