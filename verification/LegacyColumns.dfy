/** The conversion spelled out: which columns each of the six tables loses and gains, and when a row is refused. */
module LegacyColumns {
  import opened Text
  import opened Addresses
  import opened LegacyMapping
  import opened ExportImport

  // ----- the text of a user reference

  /** The number that a string of digits denotes. */
  function Denotes(s: string): int {
    if s == "" then 0 else 10 * Denotes(s[..|s| - 1]) + (s[|s| - 1] as int - '0' as int)
  }

  /** A natural number in decimal, without leading zeros. */
  ghost predicate IsDecimal(s: string, n: int) {
    && s != "" && (forall i :: 0 <= i < |s| ==> '0' <= s[i] <= '9') && Denotes(s) == n && (s[0] == '0' ==> s == "0")
  }

  lemma {:induction false} DigitsAreDecimal(n: nat)
    ensures IsDecimal(Digits(n), n)
    ensures n > 0 ==> Digits(n)[0] != '0'
  {
    if n < 10 {
      assert Digits(n)[..0] == "";
    } else {
      DigitsAreDecimal(n / 10);
      assert Digits(n)[..|Digits(n)| - 1] == Digits(n / 10);
    }
  }

  lemma {:induction false} DenotesPositive(s: string)
    requires forall i :: 0 <= i < |s| ==> '0' <= s[i] <= '9'
    ensures Denotes(s) >= 0
    ensures s != "" && s[0] != '0' ==> Denotes(s) > 0
  {
    if s != "" { DenotesPositive(s[..|s| - 1]); }
  }

  lemma {:induction false} OneDecimal(s: string, n: nat)
    requires IsDecimal(s, n)
    ensures s == Digits(n)
    decreases |s|
  {
    var init := s[..|s| - 1];
    assert s == init + [s[|s| - 1]];
    DenotesPositive(init);
    if init == "" {
      assert n < 10;
    } else {
      assert Denotes(init) > 0;
      assert n / 10 == Denotes(init);
      OneDecimal(init, n / 10);
    }
  }

  /** `user` is how a mapping file names the user that a column holds; nobody is the empty text. */
  ghost predicate Names(user: string, value: Cell) {
    match value
    case Null => user == ""
    case Words(text) => user == text
    case Flag(on) => user == if on then "True" else ""
    case Number(n) =>
      if n == 0 then user == ""
      else if n > 0 then IsDecimal(user, n)
      else user != "" && user[0] == '-' && IsDecimal(user[1..], -n)
  }

  lemma NamesMeans(user: string, value: Cell)
    ensures Names(user, value) <==> user == UserText(value)
  {
    if value.Number? && value.n > 0 {
      DigitsAreDecimal(value.n);
      if Names(user, value) { OneDecimal(user, value.n); }
    } else if value.Number? && value.n < 0 {
      DigitsAreDecimal(-value.n);
      assert UserText(value)[1..] == Digits(-value.n);
      if Names(user, value) {
        OneDecimal(user[1..], -value.n);
        assert user == "-" + user[1..];
      }
    }
  }

  // ----- the six tables

  /** The column `user` is gone, and `subject` holds the mapped subject of the user it named. */
  ghost predicate Replaces(row: Row, converted: Row, user: Column, subject: Column, subjects: IdMap) {
    && user !in converted && subject in converted
    && exists name :: Names(name, if user in row then row[user] else Null) && name in subjects
                      && converted[subject] == Words(Strip(subjects[name]))
  }

  /** The same, except that a missing or null reference becomes null. */
  ghost predicate ReplacesIfAny(row: Row, converted: Row, user: Column, subject: Column, subjects: IdMap) {
    if user in row && row[user] != Null then Replaces(row, converted, user, subject, subjects)
    else user !in converted && subject in converted && converted[subject] == Null
  }

  ghost predicate OwnersReplaced(table: TableName, row: Row, converted: Row, subjects: IdMap) {
    match table
    case Campaigns => Replaces(row, converted, CreatedByUser, CreatedBySubject, subjects)
    case Prospects => ReplacesIfAny(row, converted, AssignedUser, AssignedSubject, subjects)
    case Analyses => Replaces(row, converted, RequestedByUser, RequestedBySubject, subjects)
    case Proposals =>
      && Replaces(row, converted, CreatedByUser, CreatedBySubject, subjects)
      && ReplacesIfAny(row, converted, ApprovedByUser, ApprovedBySubject, subjects)
    case Policies => Replaces(row, converted, UpdatedByUser, UpdatedBySubject, subjects)
    case Suppressions => ReplacesIfAny(row, converted, CreatedByUser, CreatedBySubject, subjects)
    case _ => false
  }

  /** The columns a conversion may change. */
  function OwnerColumns(table: TableName): set<Column> {
    match table
    case Campaigns => {TenantId, CreatedByUser, CreatedBySubject}
    case Prospects => {TenantId, AssignedUser, AssignedSubject}
    case Analyses => {TenantId, RequestedByUser, RequestedBySubject}
    case Proposals => {TenantId, CreatedByUser, CreatedBySubject, ApprovedByUser, ApprovedBySubject}
    case Policies => {TenantId, UpdatedByUser, UpdatedBySubject}
    case Suppressions => {TenantId, CreatedByUser, CreatedBySubject}
    case _ => {}
  }

  lemma DoneReplaces(f: SubjectField, row: Row, converted: Row, subjects: IdMap)
    requires FieldDone(f, row, converted, Normalised(subjects))
    ensures if f.nullable then ReplacesIfAny(row, converted, f.source, f.target, subjects)
            else Replaces(row, converted, f.source, f.target, subjects)
  {
    NamesMeans(UserText(Get(row, f.source)), Get(row, f.source));
    var name := UserText(Get(row, f.source));
    if !(Get(row, f.source).Null? && f.nullable) {
      assert name in subjects && converted[f.target] == Words(Strip(subjects[name]));
    }
  }

  /** A converted row has lost every legacy user column of its table, and each subject column holds the subject of the
      user it stood for, or null exactly where the table allows it and there was none. The tenant is mapped, and all
      other columns are as they were. */
  lemma ConvertedColumns(table: TableName, row: Row, tenantIds: IdMap, userSubjects: IdMap, converted: Row)
    requires MapRow(table, row, tenantIds, userSubjects) == Ok(converted)
    ensures OwnersReplaced(table, row, converted, userSubjects)
    ensures TenantId in row && Str(row[TenantId]) in tenantIds
    ensures TenantId in converted && converted[TenantId] == Words(Strip(tenantIds[Str(row[TenantId])]))
    ensures forall c :: c !in OwnerColumns(table) ==>
      (c in converted <==> c in row) && (c in row ==> converted[c] == row[c])
  {
    ConvertedMeansTranslated(table, row, tenantIds, userSubjects, converted);
    var fields := SubjectFields(table).value;
    assert FieldDone(fields[0], row, converted, Normalised(userSubjects));
    DoneReplaces(fields[0], row, converted, userSubjects);
    if table.Proposals? {
      assert FieldDone(fields[1], row, converted, Normalised(userSubjects));
      DoneReplaces(fields[1], row, converted, userSubjects);
    }
    TenantIsNamed(table, row, tenantIds, userSubjects);
    OthersStay(table, row, tenantIds, userSubjects, converted);
  }

  lemma TenantIsNamed(table: TableName, row: Row, tenantIds: IdMap, userSubjects: IdMap)
    requires MapRow(table, row, tenantIds, userSubjects).Ok?
    ensures TenantId in row && Str(row[TenantId]) in tenantIds
  {
    ConvertedMeansTranslated(table, row, tenantIds, userSubjects, MapRow(table, row, tenantIds, userSubjects).value);
    ValidatedMeansInjective(tenantIds, TenantIds);
    assert Strip("") == "";
  }

  lemma UntouchedColumn(table: TableName, c: Column)
    requires SubjectFields(table).Some? && c !in OwnerColumns(table)
    ensures c != TenantId && !Touched(c, SubjectFields(table).value)
  {}

  lemma OthersStay(table: TableName, row: Row, tenantIds: IdMap, userSubjects: IdMap, converted: Row)
    requires MapRow(table, row, tenantIds, userSubjects) == Ok(converted)
    ensures forall c :: c !in OwnerColumns(table) ==>
      (c in converted <==> c in row) && (c in row ==> converted[c] == row[c])
  {
    ConvertedMeansTranslated(table, row, tenantIds, userSubjects, converted);
    TranslatedElsewhere(table, row, converted, Normalised(tenantIds), Normalised(userSubjects));
  }

  lemma TranslatedElsewhere(table: TableName, row: Row, converted: Row, tenants: IdMap, subjects: IdMap)
    requires SubjectFields(table).Some?
        && Translates(SubjectFields(table).value, row, converted, tenants, subjects)
    ensures forall c :: c !in OwnerColumns(table) ==>
      (c in converted <==> c in row) && (c in row ==> converted[c] == row[c])
  {
    forall c | c !in OwnerColumns(table)
      ensures (c in converted <==> c in row) && (c in row ==> converted[c] == row[c])
    {
      UntouchedColumn(table, c);
      assert SameAt(row, converted, c);
    }
  }

  // ----- when a row is refused

  /** The reference names a user of the mapping. */
  ghost predicate IsMapped(row: Row, user: Column, subjects: IdMap) {
    exists name :: Names(name, if user in row then row[user] else Null) && name in subjects
  }

  ghost predicate IsMappedIfAny(row: Row, user: Column, subjects: IdMap) {
    user in row && row[user] != Null ==> IsMapped(row, user, subjects)
  }

  ghost predicate OwnersAreMapped(table: TableName, row: Row, subjects: IdMap) {
    match table
    case Campaigns => IsMapped(row, CreatedByUser, subjects)
    case Prospects => IsMappedIfAny(row, AssignedUser, subjects)
    case Analyses => IsMapped(row, RequestedByUser, subjects)
    case Proposals => IsMapped(row, CreatedByUser, subjects) && IsMappedIfAny(row, ApprovedByUser, subjects)
    case Policies => IsMapped(row, UpdatedByUser, subjects)
    case Suppressions => IsMappedIfAny(row, CreatedByUser, subjects)
    case _ => false
  }

  /** Every identifier has a character that is not blank, and no two are mapped to the same one up to outer blanks. */
  ghost predicate IsUsableMapping(m: IdMap) {
    && m != map[] && (forall k :: k in m ==> !OnlyBlanks(k) && !OnlyBlanks(m[k]))
    && forall j, k :: j in m && k in m && j != k ==> Strip(m[j]) != Strip(m[k])
  }

  lemma BlankIsStripped(s: string)
    ensures Strip(s) == "" <==> OnlyBlanks(s)
  {
    StripIsCore(s);
    if Strip(s) == "" {
      var i: nat, j: nat :| Between(s, i, j, "");
      forall k | 0 <= k < |s| ensures s[k] in BLANKS { BlankEverywhere(s, i, j, k); }
    }
    if OnlyBlanks(s) {
      assert s[..|s|] == s && s[|s|..] == "";
      assert Between(s, |s|, |s|, "");
      OneCore(s, Strip(s), "");
    }
  }

  lemma UsableMeans(m: IdMap, section: Section)
    ensures Validated(m, section).Ok? <==> IsUsableMapping(m)
  {
    ValidatedMeansInjective(m, section);
    NonEmptyMeans(m);
    InjectiveMeans(m);
  }

  lemma InjectiveMeans(m: IdMap)
    ensures Injective(Normalised(m)) <==> forall j, k :: j in m && k in m && j != k ==> Strip(m[j]) != Strip(m[k])
  {
    var n := Normalised(m);
    assert n.Keys == m.Keys && forall k :: k in m ==> n[k] == Strip(m[k]);
  }

  lemma MappedMeans(row: Row, user: Column, subjects: IdMap)
    ensures IsMapped(row, user, subjects) <==> UserText(Get(row, user)) in Normalised(subjects)
  {
    NamesMeans(UserText(Get(row, user)), Get(row, user));
    if IsMapped(row, user, subjects) {
      var name :| Names(name, if user in row then row[user] else Null) && name in subjects;
      NamesMeans(name, Get(row, user));
    }
  }

  lemma OneFieldMaps(f: SubjectField, row: Row, start: Row, subjects: IdMap)
    ensures MapFields([f], row, start, Normalised(subjects)).Ok?
      <==> if f.nullable then IsMappedIfAny(row, f.source, subjects) else IsMapped(row, f.source, subjects)
  {
    MappedMeans(row, f.source, subjects);
    assert [f][1..] == [];
  }

  lemma TwoFieldsMap(f: SubjectField, g: SubjectField, row: Row, start: Row, subjects: IdMap)
    requires !f.nullable && g.nullable
    ensures MapFields([f, g], row, start, Normalised(subjects)).Ok?
      <==> IsMapped(row, f.source, subjects) && IsMappedIfAny(row, g.source, subjects)
  {
    MappedMeans(row, f.source, subjects);
    assert [f, g][1..] == [g];
    if IsMapped(row, f.source, subjects) {
      var next := (start - {f.source})[f.target := Words(Normalised(subjects)[UserText(Get(row, f.source))])];
      OneFieldMaps(g, row, next, subjects);
    }
  }

  lemma OwnersMapIff(table: TableName, row: Row, start: Row, subjects: IdMap)
    requires SubjectFields(table).Some?
    ensures MapFields(SubjectFields(table).value, row, start, Normalised(subjects)).Ok?
      <==> OwnersAreMapped(table, row, subjects)
  {
    var fields := SubjectFields(table).value;
    if table.Proposals? {
      TwoFieldsMap(fields[0], fields[1], row, start, subjects);
    } else {
      OneFieldMaps(fields[0], row, start, subjects);
    }
  }

  lemma OwnersConvertIff(table: TableName, row: Row, tenantIds: IdMap, userSubjects: IdMap)
    requires SubjectFields(table).Some?
    ensures MapOwners(SubjectFields(table).value, row, Normalised(tenantIds), Normalised(userSubjects)).Ok?
      <==> TenantText(row) in tenantIds && OwnersAreMapped(table, row, userSubjects)
  {
    if TenantText(row) in tenantIds {
      OwnersMapIff(table, row, row[TenantId := Words(Normalised(tenantIds)[TenantText(row)])], userSubjects);
    }
  }

  lemma TenantMeans(row: Row, tenantIds: IdMap)
    requires IsUsableMapping(tenantIds)
    ensures TenantText(row) in tenantIds <==> TenantId in row && Str(row[TenantId]) in tenantIds
  {
    assert OnlyBlanks("");
  }

  lemma IdMeans(row: Row)
    ensures IsSet(Get(row, Id)) <==> Id in row && row[Id] !in {Null, Number(0), Words(""), Flag(false)}
  {}

  lemma TableMeans(table: TableName)
    ensures SubjectFields(table).Some? <==>
      table in {Campaigns, Prospects, Analyses, Proposals, Policies, Suppressions}
  {}

  lemma RowMeans(table: TableName, row: Row, tenantIds: IdMap, userSubjects: IdMap)
    ensures MapRow(table, row, tenantIds, userSubjects).Ok? <==>
      && SubjectFields(table).Some? && IsSet(Get(row, Id))
      && Validated(tenantIds, TenantIds).Ok? && Validated(userSubjects, UserSubjects).Ok?
      && MapOwners(SubjectFields(table).value, row, Normalised(tenantIds), Normalised(userSubjects)).Ok?
  {}

  /** A row is converted if and only if its table is one of the six, it has an id, both mappings are usable, its tenant
      is mapped, and every user reference its table has is mapped, or is null where the table allows it. */
  lemma ConvertsIff(table: TableName, row: Row, tenantIds: IdMap, userSubjects: IdMap)
    ensures MapRow(table, row, tenantIds, userSubjects).Ok? <==>
      && table in {Campaigns, Prospects, Analyses, Proposals, Policies, Suppressions}
      && Id in row && row[Id] !in {Null, Number(0), Words(""), Flag(false)}
      && IsUsableMapping(tenantIds) && IsUsableMapping(userSubjects)
      && TenantId in row && Str(row[TenantId]) in tenantIds
      && OwnersAreMapped(table, row, userSubjects)
  {
    RowMeans(table, row, tenantIds, userSubjects);
    TableMeans(table);
    IdMeans(row);
    UsableMeans(tenantIds, TenantIds);
    UsableMeans(userSubjects, UserSubjects);
    if IsUsableMapping(tenantIds) { TenantMeans(row, tenantIds); }
    if SubjectFields(table).Some? { OwnersConvertIff(table, row, tenantIds, userSubjects); }
  }

  lemma NotMapped(row: Row, user: Column, subjects: IdMap, name: string)
    requires user in row && Names(name, row[user]) && name !in subjects
    ensures !IsMapped(row, user, subjects)
  {
    if IsMapped(row, user, subjects) {
      var other :| Names(other, row[user]) && other in subjects;
      NamesMeans(name, row[user]);
      NamesMeans(other, row[user]);
    }
  }

  /** A user that is named and not mapped, in any user column of the row's table, refuses the row. */
  lemma UnmappedUserRefuses(table: TableName, row: Row, tenantIds: IdMap, userSubjects: IdMap, user: Column,
                            name: string)
    requires user in OwnerColumns(table)
    requires user in {CreatedByUser, AssignedUser, RequestedByUser, ApprovedByUser, UpdatedByUser}
    requires user in row && row[user] != Null && Names(name, row[user]) && name !in userSubjects
    ensures MapRow(table, row, tenantIds, userSubjects).Err?
  {
    NotMapped(row, user, userSubjects, name);
    OneUnmapped(table, row, userSubjects, user);
    ConvertsIff(table, row, tenantIds, userSubjects);
  }

  lemma OneUnmapped(table: TableName, row: Row, subjects: IdMap, user: Column)
    requires user in OwnerColumns(table)
    requires user in {CreatedByUser, AssignedUser, RequestedByUser, ApprovedByUser, UpdatedByUser}
    requires user in row && row[user] != Null && !IsMapped(row, user, subjects)
    ensures !OwnersAreMapped(table, row, subjects)
  {}

  /** A mapping that is not usable is refused as empty if an identifier is missing or blank, and as not unique
      otherwise. */
  ghost predicate IsMappingError(e: GateError, m: IdMap, section: Section) {
    if m == map[] || exists k :: k in m && (OnlyBlanks(k) || OnlyBlanks(m[k])) then e == EmptyMapping(section)
    else e == MappingNotUnique(section)
  }

  lemma MappingErrorMeans(m: IdMap, section: Section)
    ensures Validated(m, section).Err? ==> IsMappingError(Validated(m, section).error, m, section)
  {
    NonEmptyMeans(m);
  }

  lemma NonEmptyMeans(m: IdMap)
    ensures NonEmpty(Normalised(m)) <==> m != map[] && forall k :: k in m ==> !OnlyBlanks(k) && !OnlyBlanks(m[k])
  {
    forall k | k in m ensures Strip(k) == "" <==> OnlyBlanks(k) { BlankIsStripped(k); }
    forall k | k in m ensures Strip(m[k]) == "" <==> OnlyBlanks(m[k]) { BlankIsStripped(m[k]); }
    var n := Normalised(m);
    assert n.Keys == m.Keys;
  }

  /** A refused row gets the error of the first thing that is wrong: its table, its id, the two mappings, its tenant,
      and last its users. */
  lemma RowRefusedFor(table: TableName, row: Row, tenantIds: IdMap, userSubjects: IdMap)
    requires MapRow(table, row, tenantIds, userSubjects).Err?
    ensures var error := MapRow(table, row, tenantIds, userSubjects).error;
      if table !in {Campaigns, Prospects, Analyses, Proposals, Policies, Suppressions} then error == UnsupportedTable
      else if Id !in row || row[Id] in {Null, Number(0), Words(""), Flag(false)} then error == NoStableId
      else if !IsUsableMapping(tenantIds) then IsMappingError(error, tenantIds, TenantIds)
      else if !IsUsableMapping(userSubjects) then IsMappingError(error, userSubjects, UserSubjects)
      else if TenantId !in row then error == NoTenant("")
      else if Str(row[TenantId]) !in tenantIds then error == NoTenant(Str(row[TenantId]))
      else error.NoSubject? && error.user !in userSubjects
  {
    TableMeans(table);
    IdMeans(row);
    UsableMeans(tenantIds, TenantIds);
    UsableMeans(userSubjects, UserSubjects);
    MappingErrorMeans(tenantIds, TenantIds);
    MappingErrorMeans(userSubjects, UserSubjects);
    if IsUsableMapping(tenantIds) { TenantMeans(row, tenantIds); }
    if SubjectFields(table).Some? && IsSet(Get(row, Id)) && IsUsableMapping(tenantIds)
        && IsUsableMapping(userSubjects) {
      ValidMappings(table, row, tenantIds, userSubjects);
      if TenantText(row) in tenantIds {
        FieldsRefuse(SubjectFields(table).value, row, row[TenantId := Words(Normalised(tenantIds)[TenantText(row)])],
                     Normalised(userSubjects));
      }
    }
  }

  lemma {:induction false} FieldsRefuse(fields: seq<SubjectField>, row: Row, start: Row, subjects: IdMap)
    ensures var r := MapFields(fields, row, start, subjects);
      r.Err? ==> r.error.NoSubject? && r.error.user !in subjects
  {
    if fields != [] {
      var f, value := fields[0], Get(row, fields[0].source);
      var dropped := start - {f.source};
      if value.Null? && f.nullable {
        FieldsRefuse(fields[1..], row, dropped[f.target := Null], subjects);
      } else if UserText(value) in subjects {
        FieldsRefuse(fields[1..], row, dropped[f.target := Words(subjects[UserText(value)])], subjects);
      }
    }
  }

  // ----- with reattributions

  /** The row with each user reference that the file reattributes replaced by the user it names instead. */
  function Reassigned(table: TableName, row: Row, reattributions: IdMap): Row {
    map c | c in row ::
      if c in OwnerColumns(table) * {CreatedByUser, AssignedUser, RequestedByUser, ApprovedByUser, UpdatedByUser}
         && row[c] != Null && Str(row[c]) in reattributions
      then Words(reattributions[Str(row[c])]) else row[c]
  }

  lemma SourceMeans(table: TableName, c: Column)
    ensures IsSource(c, Fields(table)) <==>
      c in OwnerColumns(table) && c in {CreatedByUser, AssignedUser, RequestedByUser, ApprovedByUser, UpdatedByUser}
  {
    if c in OwnerColumns(table) && c in {CreatedByUser, AssignedUser, RequestedByUser, ApprovedByUser, UpdatedByUser} {
      assert Fields(table)[0].source == c || (table.Proposals? && Fields(table)[1].source == c);
    }
  }

  lemma ReassignedMeans(table: TableName, row: Row, mapping: Mapping)
    requires OneHop(mapping.reattributions, mapping.userSubjects)
    ensures Reattributed(Fields(table), row, mapping.reattributions) == Reassigned(table, row, mapping.reattributions)
  {
    var moved, there := Reattributed(Fields(table), row, mapping.reattributions),
        Reassigned(table, row, mapping.reattributions);
    forall c <- moved.Keys + there.Keys ensures SameAt(moved, there, c) {
      ReattributedAt(Fields(table), row, mapping, c);
      SourceMeans(table, c);
    }
    EverywhereSame(moved, there);
  }

  /** The two rows have the same columns, and differ at most in owners. */
  ghost predicate SameButOwners(table: TableName, a: Row, b: Row) {
    a.Keys == b.Keys && forall c :: c in a && (c in {Id, TenantId} || c !in OwnerColumns(table)) ==> a[c] == b[c]
  }

  lemma ReassignedKeeps(table: TableName, row: Row, reattributions: IdMap)
    ensures SameButOwners(table, Reassigned(table, row, reattributions), row)
  {
    var record := Reassigned(table, row, reattributions);
    assert record.Keys == row.Keys;
  }

  lemma ConvertsReassigned(table: TableName, row: Row, mapping: Mapping)
    requires OneHop(mapping.reattributions, mapping.userSubjects)
    ensures ConvertRow(table, row, mapping)
      == MapRow(table, Reassigned(table, row, mapping.reattributions), mapping.tenantIds, mapping.userSubjects)
  {
    ReassignedMeans(table, row, mapping);
  }

  lemma ColumnsOfSame(table: TableName, row: Row, record: Row, mapping: Mapping, converted: Row)
    requires SameButOwners(table, record, row)
    requires MapRow(table, record, mapping.tenantIds, mapping.userSubjects) == Ok(converted)
    ensures OwnersReplaced(table, record, converted, mapping.userSubjects)
    ensures TenantId in row && Str(row[TenantId]) in mapping.tenantIds
    ensures TenantId in converted && converted[TenantId] == Words(Strip(mapping.tenantIds[Str(row[TenantId])]))
    ensures forall c :: c !in OwnerColumns(table) ==>
      (c in converted <==> c in row) && (c in row ==> converted[c] == row[c])
  {
    ConvertedColumns(table, record, mapping.tenantIds, mapping.userSubjects, converted);
  }

  /** An imported row's subjects are those of its users, or of the users that the file names instead. */
  lemma ImportedColumns(table: TableName, row: Row, mapping: Mapping, converted: Row)
    requires OneHop(mapping.reattributions, mapping.userSubjects) && ConvertRow(table, row, mapping) == Ok(converted)
    ensures OwnersReplaced(table, Reassigned(table, row, mapping.reattributions), converted, mapping.userSubjects)
    ensures TenantId in row && Str(row[TenantId]) in mapping.tenantIds
    ensures TenantId in converted && converted[TenantId] == Words(Strip(mapping.tenantIds[Str(row[TenantId])]))
    ensures forall c :: c !in OwnerColumns(table) ==>
      (c in converted <==> c in row) && (c in row ==> converted[c] == row[c])
  {
    ConvertsReassigned(table, row, mapping);
    ReassignedKeeps(table, row, mapping.reattributions);
    ColumnsOfSame(table, row, Reassigned(table, row, mapping.reattributions), mapping, converted);
  }

  lemma ConvertsSameIff(table: TableName, row: Row, record: Row, mapping: Mapping)
    requires SameButOwners(table, record, row)
    ensures MapRow(table, record, mapping.tenantIds, mapping.userSubjects).Ok? <==>
      && table in {Campaigns, Prospects, Analyses, Proposals, Policies, Suppressions}
      && Id in row && row[Id] !in {Null, Number(0), Words(""), Flag(false)}
      && IsUsableMapping(mapping.tenantIds) && IsUsableMapping(mapping.userSubjects)
      && TenantId in row && Str(row[TenantId]) in mapping.tenantIds
      && OwnersAreMapped(table, record, mapping.userSubjects)
  {
    ConvertsIff(table, record, mapping.tenantIds, mapping.userSubjects);
  }

  /** With reattributions a row is converted if and only if the row with its users replaced is. */
  lemma ImportsIff(table: TableName, row: Row, mapping: Mapping)
    requires OneHop(mapping.reattributions, mapping.userSubjects)
    ensures ConvertRow(table, row, mapping).Ok? <==>
      && table in {Campaigns, Prospects, Analyses, Proposals, Policies, Suppressions}
      && Id in row && row[Id] !in {Null, Number(0), Words(""), Flag(false)}
      && IsUsableMapping(mapping.tenantIds) && IsUsableMapping(mapping.userSubjects)
      && TenantId in row && Str(row[TenantId]) in mapping.tenantIds
      && OwnersAreMapped(table, Reassigned(table, row, mapping.reattributions), mapping.userSubjects)
  {
    ConvertsReassigned(table, row, mapping);
    ReassignedKeeps(table, row, mapping.reattributions);
    ConvertsSameIff(table, row, Reassigned(table, row, mapping.reattributions), mapping);
  }

  // ----- the mapping file

  /** The texts of a section's values. */
  ghost predicate SectionHolds(file: map<string, Json>, section: string, m: IdMap) {
    && section in file && file[section].Object? && m.Keys == file[section].entries.Keys
    && forall k :: k in m ==>
         match file[section].entries[k]
         case Scalar(cell) => m[k] == Str(cell)
         case Nested(text) => m[k] == text
  }

  /** What is loaded is what the file's three sections hold; without the optional one nobody is reattributed. */
  lemma LoadedIsWhatTheFileHolds(file: MappingFile)
    requires Loaded(file).Ok?
    ensures file.Sections?
    ensures var mapping := Loaded(file).value;
      && SectionHolds(file.sections, "tenant_ids", mapping.tenantIds)
      && SectionHolds(file.sections, "user_subjects", mapping.userSubjects)
      && (if "subject_reattributions" in file.sections
          then SectionHolds(file.sections, "subject_reattributions", mapping.reattributions)
          else mapping.reattributions == map[])
  {}

  /** A mapping file loads if and only if it is an object with the two required sections as objects, tenants among them,
      the optional section, if there, is an object that moves users outside of the mapping to users inside, and no
      unknown section stands beside all three. */
  lemma LoadsIff(file: MappingFile)
    ensures Loaded(file).Ok? <==>
      && file.Sections? && "tenant_ids" in file.sections && "user_subjects" in file.sections
      && file.sections["tenant_ids"].Object? && file.sections["user_subjects"].Object?
      && file.sections["tenant_ids"].entries != map[]
      && ("subject_reattributions" in file.sections ==>
            && file.sections["subject_reattributions"].Object?
            && file.sections.Keys <= {"tenant_ids", "user_subjects", "subject_reattributions"}
            && var users := file.sections["user_subjects"].entries.Keys;
               forall k, v :: (k, v) in file.sections["subject_reattributions"].entries.Items ==>
                 k !in users && ValueText(v) in users)
  {
    if file.Sections? {
      var sections := file.sections;
      assert KNOWN < sections.Keys <==>
        KNOWN <= sections.Keys && !(sections.Keys <= {"tenant_ids", "user_subjects", "subject_reattributions"});
      if REATTRIBUTIONS in sections && sections[REATTRIBUTIONS].Object? && USER_SUBJECTS in sections
          && sections[USER_SUBJECTS].Object? {
        OneHopMeans(sections[REATTRIBUTIONS].entries, sections[USER_SUBJECTS].entries);
      }
    }
  }

  lemma OneHopMeans(moves: map<string, Value>, users: map<string, Value>)
    ensures OneHop(Texts(moves), Texts(users)) <==>
      forall k, v :: (k, v) in moves.Items ==> k !in users.Keys && ValueText(v) in users.Keys
  {
    if OneHop(Texts(moves), Texts(users)) {
      forall k, v | (k, v) in moves.Items ensures k !in users.Keys && ValueText(v) in users.Keys {
        assert k in Texts(moves);
      }
    }
    if forall k, v :: (k, v) in moves.Items ==> k !in users.Keys && ValueText(v) in users.Keys {
      forall k | k in Texts(moves) ensures k !in Texts(users) && Texts(moves)[k] in Texts(users) {
        assert (k, moves[k]) in moves.Items;
      }
    }
  }
}
