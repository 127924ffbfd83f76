/**
  The spreadsheet export of employees, and what importing an exported sheet again does: for which employees, and for
  how many of them, it changes no data.
*/
module Export {
  import opened Wrappers
  import opened Decimal
  import opened Texts
  import opened RowLocking
  import opened RowTable
  import opened Employees
  import opened ImportExport

  // ---- the sheet ----

  const EXPORT_HEADERS := ["employeeCode", "firstName", "lastName", "email", "department", "jobTitle", "branch", "responsibleOfficerId"]

  function CellOf(value: Option<string>): Cell {
    if value.Some? then Plain(value.value) else Empty
  }

  function ExportRow(f: EmpFields): seq<Cell> {
    [Plain(f.employeeCode), CellOf(f.firstName), CellOf(f.lastName), CellOf(f.email), CellOf(f.department),
     CellOf(f.jobTitle), CellOf(f.branch), CellOf(f.responsibleOfficerId)]
  }

  function ExportSheet(rows: seq<EmpRow>): (sheet: seq<seq<Cell>>)
    ensures |sheet| == |rows|
  {
    seq(|rows|, i requires 0 <= i < |rows| => ExportRow(rows[i].fields))
  }

  method ExportEmployees(rows: seq<EmpRow>) returns (sheet: seq<seq<Cell>>)
    ensures sheet == ExportSheet(rows)
  {
    sheet := [];
    for k := 0 to |rows|
      invariant |sheet| == k && forall i :: 0 <= i < k ==> sheet[i] == ExportRow(rows[i].fields)
    {
      sheet := sheet + [ExportRow(rows[k].fields)];
    }
  }

  // ---- one employee ----

  /** What the import reads in an exported cell: nothing in a blank one, and otherwise the trimmed text. */
  function CellRead(value: Option<string>): Option<string> {
    if value.None? || Trim(value.value) == "" then None else Some(Trim(value.value))
  }

  /** The request that the exported row of an employee is parsed to. */
  function ExportParsed(f: EmpFields, isEmail: string -> bool): Parsed {
    ParseEmployeeImportRow(RecordOf(EXPORT_HEADERS, ExportRow(f)), isEmail)
  }

  /** The import takes the exported row, and it leaves the employee as it is. */
  predicate ComesBack(f: EmpFields, isEmail: string -> bool) {
    var parsed := ExportParsed(f, isEmail);
    parsed.Data? && parsed.dto.employeeCode == f.employeeCode && Employees.UpdateFields(f, PatchOf(parsed.dto)) == f
  }

  predicate TrimStable(value: string) {
    Trim(value) == value
  }

  /** A cell that the import does not alter: it reads the value itself, or nothing, which keeps the value. */
  predicate StableOrBlank(value: Option<string>) {
    value.Some? ==> TrimStable(value.value) || Trim(value.value) == ""
  }

  /** The employee as the import schema sees it, blank values left out. */
  function Stripped(f: EmpFields): CreateDto
    requires f.firstName.Some? && f.lastName.Some?
  {
    CreateDto(f.employeeCode, f.firstName.value, f.lastName.value, CellRead(f.email), CellRead(f.department),
              CellRead(f.jobTitle), CellRead(f.branch), CellRead(f.responsibleOfficerId))
  }

  /** Both names are there; code and names are trimmed, other values trimmed or blank; full name derived; schema-valid. */
  predicate Exportable(f: EmpFields, isEmail: string -> bool) {
    && f.firstName.Some? && f.lastName.Some?
    && TrimStable(f.employeeCode) && TrimStable(f.firstName.value) && TrimStable(f.lastName.value)
    && StableOrBlank(f.email) && StableOrBlank(f.department) && StableOrBlank(f.jobTitle)
    && StableOrBlank(f.branch) && StableOrBlank(f.responsibleOfficerId)
    && f.fullName == DisplayName(f.firstName.value, f.lastName.value)
    && SchemaAccepts(Stripped(f), isEmail)
  }

  lemma ExportedField(f: EmpFields, i: nat)
    requires i < 8
    ensures Field(RecordOf(EXPORT_HEADERS, ExportRow(f)), EXPORT_HEADERS[i]) == NormalizeCellValue(ExportRow(f)[i])
  {
    DistinctHeadersKeepColumns(EXPORT_HEADERS, ExportRow(f), i);
    RecordHoldsLastCells(EXPORT_HEADERS, ExportRow(f), EXPORT_HEADERS[i]);
  }

  lemma ExportedValue(f: EmpFields, i: nat, name: string, value: Option<string>)
    ensures i < 8 && EXPORT_HEADERS[i] == name && ExportRow(f)[i] == CellOf(value) ==>
      Field(RecordOf(EXPORT_HEADERS, ExportRow(f)), name) == CellRead(value)
  {
    if i < 8 {
      ExportedField(f, i);
    }
  }

  /** Every field is read from its own column. */
  lemma ExportReadsBack(f: EmpFields, isEmail: string -> bool)
    ensures ExportParsed(f, isEmail)
         == ParseFields(CellRead(Some(f.employeeCode)), CellRead(f.firstName), CellRead(f.lastName), CellRead(f.email),
                        CellRead(f.department), CellRead(f.jobTitle), CellRead(f.branch), CellRead(f.responsibleOfficerId), isEmail)
  {
    ExportedNames(f);
    ExportedOptions(f);
  }

  lemma ExportedNames(f: EmpFields)
    ensures var record := RecordOf(EXPORT_HEADERS, ExportRow(f));
      && Field(record, "employeeCode") == CellRead(Some(f.employeeCode))
      && Field(record, "firstName") == CellRead(f.firstName) && Field(record, "lastName") == CellRead(f.lastName)
  {
    ExportedValue(f, 0, "employeeCode", Some(f.employeeCode));
    ExportedValue(f, 1, "firstName", f.firstName);
    ExportedValue(f, 2, "lastName", f.lastName);
  }

  lemma ExportedOptions(f: EmpFields)
    ensures var record := RecordOf(EXPORT_HEADERS, ExportRow(f));
      && Field(record, "email") == CellRead(f.email) && Field(record, "department") == CellRead(f.department)
      && Field(record, "jobTitle") == CellRead(f.jobTitle) && Field(record, "branch") == CellRead(f.branch)
      && Field(record, "responsibleOfficerId") == CellRead(f.responsibleOfficerId)
  {
    ExportedValue(f, 3, "email", f.email);
    ExportedValue(f, 4, "department", f.department);
    ExportedValue(f, 5, "jobTitle", f.jobTitle);
    ExportedValue(f, 6, "branch", f.branch);
    ExportedValue(f, 7, "responsibleOfficerId", f.responsibleOfficerId);
  }

  lemma {:induction false} TrimEndKeepsStart(s: string)
    requires s != "" && !IsSpace(s[0])
    ensures TrimEnd(s) != ""
  {
    if IsSpace(s[|s| - 1]) {
      TrimEndKeepsStart(s[..|s| - 1]);
    }
  }

  /** A trimmed first name keeps the full name from being blank. */
  lemma NameIsNotBlank(first: string, last: string)
    requires first != "" && TrimStable(first)
    ensures DisplayName(first, last) != ""
  {
    var name := first + " " + last;
    TrimIsIdentity(first);
    assert name[0] == first[0];
    TrimEndKeepsStart(name);
  }

  /** An optional value stays exactly if it is trimmed or blank. */
  lemma ValueStaysIff(value: Option<string>)
    ensures Coalesce(CellRead(value), value) == value <==> StableOrBlank(value)
  {
  }

  lemma OptionsStayIff(f: EmpFields, dto: CreateDto)
    requires dto.email == CellRead(f.email) && dto.department == CellRead(f.department) && dto.jobTitle == CellRead(f.jobTitle)
    requires dto.branch == CellRead(f.branch) && dto.responsibleOfficerId == CellRead(f.responsibleOfficerId)
    ensures var g := Employees.UpdateFields(f, PatchOf(dto));
      (g.email == f.email && g.department == f.department && g.jobTitle == f.jobTitle && g.branch == f.branch
       && g.responsibleOfficerId == f.responsibleOfficerId)
      <==> (StableOrBlank(f.email) && StableOrBlank(f.department) && StableOrBlank(f.jobTitle)
            && StableOrBlank(f.branch) && StableOrBlank(f.responsibleOfficerId))
  {
    ValueStaysIff(f.email);
    ValueStaysIff(f.department);
    ValueStaysIff(f.jobTitle);
    ValueStaysIff(f.branch);
    ValueStaysIff(f.responsibleOfficerId);
  }

  lemma NamesStayIff(f: EmpFields, dto: CreateDto)
    requires f.firstName.Some? && f.lastName.Some?
    requires dto.firstName == Trim(f.firstName.value) && dto.lastName == Trim(f.lastName.value) && dto.firstName != ""
    ensures var g := Employees.UpdateFields(f, PatchOf(dto));
      (g.firstName == f.firstName && g.lastName == f.lastName && g.fullName == f.fullName)
      <==> (TrimStable(f.firstName.value) && TrimStable(f.lastName.value)
            && f.fullName == DisplayName(f.firstName.value, f.lastName.value))
  {
    if TrimStable(f.firstName.value) {
      NameIsNotBlank(f.firstName.value, f.lastName.value);
    }
  }

  /** Exporting an employee and importing its row again leaves it as it is if and only if it is exportable. */
  lemma ComesBackIff(f: EmpFields, isEmail: string -> bool)
    ensures ComesBack(f, isEmail) <==> Exportable(f, isEmail)
  {
    ExportReadsBack(f, isEmail);
    if f.firstName.Some? && f.lastName.Some? {
      if ExportParsed(f, isEmail).Data? {
        var dto := ExportParsed(f, isEmail).dto;
        NamesStayIff(f, dto);
        OptionsStayIff(f, dto);
        StaysByParts(f, dto);
      }
      TrimmedIsRead(f, isEmail);
    }
  }

  lemma StaysByParts(f: EmpFields, dto: CreateDto)
    ensures var g := Employees.UpdateFields(f, PatchOf(dto));
      g == f <==>
        && g.firstName == f.firstName && g.lastName == f.lastName && g.fullName == f.fullName && g.email == f.email
        && g.department == f.department && g.jobTitle == f.jobTitle && g.branch == f.branch
        && g.responsibleOfficerId == f.responsibleOfficerId
  {
  }

  /** With trimmed code and names the row is parsed to the stripped employee, if the schema accepts that. */
  lemma TrimmedIsRead(f: EmpFields, isEmail: string -> bool)
    requires f.firstName.Some? && f.lastName.Some?
    ensures TrimStable(f.employeeCode) && TrimStable(f.firstName.value) && TrimStable(f.lastName.value) ==>
      ExportParsed(f, isEmail) == if SchemaAccepts(Stripped(f), isEmail) then Data(Stripped(f)) else Invalid
  {
    ExportReadsBack(f, isEmail);
  }

  /** An employee that the API creates with a space before its first name: the schema accepts it, and the import trims it. */
  lemma UntrimmedNameIsChanged(tenant: Tenant, isEmail: string -> bool)
    ensures var dto := CreateDto("1", " A", "B", None, None, None, None, None);
      var f := Employees.CreateFields(NewEmployee(tenant, dto));
      SchemaAccepts(dto, isEmail) && !ComesBack(f, isEmail)
  {
    var dto := CreateDto("1", " A", "B", None, None, None, None, None);
    TrimIsIdentity(" A");
    assert IsSpace(' ');
    ComesBackIff(Employees.CreateFields(NewEmployee(tenant, dto)), isEmail);
  }

  /** An employee without a first name, as the development data has them: its exported row is an error of the import. */
  lemma NamelessIsAnError(f: EmpFields, isEmail: string -> bool)
    requires f.firstName.None? || f.lastName.None?
    ensures ExportParsed(f, isEmail).Invalid?
  {
    ExportReadsBack(f, isEmail);
  }

  /** The exported row of a created employee has each value of its request in its own column, and nothing for a missing one. */
  lemma CreatedIsExported(tenant: Tenant, dto: CreateDto)
    ensures var row := ExportRow(Employees.CreateFields(NewEmployee(tenant, dto)));
      && |row| == 8 && row[0] == Plain(dto.employeeCode) && row[1] == Plain(dto.firstName) && row[2] == Plain(dto.lastName)
      && row[3] == (if dto.email.Some? then Plain(dto.email.value) else Empty)
      && row[4] == (if dto.department.Some? then Plain(dto.department.value) else Empty)
      && row[5] == (if dto.jobTitle.Some? then Plain(dto.jobTitle.value) else Empty)
      && row[6] == (if dto.branch.Some? then Plain(dto.branch.value) else Empty)
      && row[7] == (if dto.responsibleOfficerId.Some? then Plain(dto.responsibleOfficerId.value) else Empty)
  {
  }

  // ---- a table of employees ----

  /** The parsed rows of an export of any size, before the limits that an import puts on its sheet. */
  function Reimport(rows: seq<EmpRow>, isEmail: string -> bool): (r: seq<SheetRow>)
    ensures |r| == |rows|
  {
    seq(|rows|, i requires 0 <= i < |rows| =>
      SheetRow(i + 2, ParseEmployeeImportRow(RecordOf(EXPORT_HEADERS, ExportRow(rows[i].fields)), isEmail), false))
  }

  lemma ReimportSplits(rows: seq<EmpRow>, isEmail: string -> bool)
    requires rows != []
    ensures Reimport(rows, isEmail) == Reimport(rows[..|rows| - 1], isEmail) + [Reimport(rows, isEmail)[|rows| - 1]]
  {
  }

  ghost predicate AllExportable(rows: seq<EmpRow>, isEmail: string -> bool) {
    forall r :: r in rows ==> Exportable(r.fields, isEmail)
  }

  ghost predicate AllLive(rows: seq<EmpRow>) {
    forall r :: r in rows ==> r.Live()
  }

  ghost function Bumped(m: ByCode, rows: seq<EmpRow>): ByCode {
    map c | c in m :: if m[c] in rows then m[c].(version := m[c].version + 1) else m[c]
  }

  /** These rows of the table, each once. */
  ghost predicate Selects(m: ByCode, rows: seq<EmpRow>) {
    && (forall r :: r in rows ==> r.fields.employeeCode in m && m[r.fields.employeeCode] == r)
    && (forall i, j :: 0 <= i < j < |rows| ==> rows[i] != rows[j])
    && (forall c :: c in m ==> m[c].fields.employeeCode == c)
  }

  lemma SelectsFront(m: ByCode, front: seq<EmpRow>, last: EmpRow)
    requires Selects(m, front + [last])
    ensures Selects(m, front)
  {
    assert last in front + [last] && forall r :: r in front ==> r in front + [last];
    forall i, j | 0 <= i < j < |front| ensures front[i] != front[j] {
      assert (front + [last])[i] == front[i] && (front + [last])[j] == front[j];
    }
  }

  /** Exportable employees: folding their rows changes no field and raises each by one version. */
  lemma {:induction false} ReimportFold(tenant: Tenant, m: ByCode, rows: seq<EmpRow>, isEmail: string -> bool)
    requires Selects(m, rows) && AllLive(rows) && AllExportable(rows, isEmail)
    ensures FoldRows(tenant, m, Reimport(rows, isEmail)) == Bumped(m, rows)
    ensures FailedRows(tenant, m, Reimport(rows, isEmail)) == []
  {
    if rows == [] {
      assert Bumped(m, rows) == m;
    } else {
      var front, last := rows[..|rows| - 1], rows[|rows| - 1];
      assert rows == front + [last];
      SelectsFront(m, front, last);
      ReimportFold(tenant, m, front, isEmail);
      ComesBackIff(last.fields, isEmail);
      ReimportOneMore(tenant, m, front, last, Reimport(front, isEmail), Reimport(rows, isEmail)[|rows| - 1], isEmail);
      ReimportSplits(rows, isEmail);
    }
  }

  lemma ReimportOneMore(
    tenant: Tenant, m: ByCode, front: seq<EmpRow>, last: EmpRow, sheet: seq<SheetRow>, row: SheetRow, isEmail: string -> bool)
    requires Selects(m, front + [last]) && last.Live() && ComesBack(last.fields, isEmail)
    requires FoldRows(tenant, m, sheet) == Bumped(m, front) && FailedRows(tenant, m, sheet) == []
    requires row.parsed == ExportParsed(last.fields, isEmail) && !row.outage
    ensures FoldRows(tenant, m, sheet + [row]) == Bumped(m, front + [last])
    ensures FailedRows(tenant, m, sheet + [row]) == []
  {
    BumpOneMore(m, front, last);
    ReimportStep(tenant, Bumped(m, front), last, row, isEmail);
    FoldAppend(tenant, m, sheet, row);
  }

  lemma ReimportStep(tenant: Tenant, m: ByCode, r: EmpRow, row: SheetRow, isEmail: string -> bool)
    requires r.Live() && ComesBack(r.fields, isEmail) && r.fields.employeeCode in m && m[r.fields.employeeCode] == r
    requires row.parsed == ExportParsed(r.fields, isEmail) && !row.outage
    ensures !RowFails(m, row) && row.parsed.dto.employeeCode == r.fields.employeeCode
    ensures UpsertedRow(tenant, m, row.parsed.dto) == Row(r.fields, r.version + 1, None)
  {
  }

  lemma FoldAppend(tenant: Tenant, m: ByCode, rows: seq<SheetRow>, row: SheetRow)
    requires !RowFails(FoldRows(tenant, m, rows), row)
    ensures var front := FoldRows(tenant, m, rows); var dto := row.parsed.dto;
      && FoldRows(tenant, m, rows + [row]) == front[dto.employeeCode := UpsertedRow(tenant, front, dto)]
      && FailedRows(tenant, m, rows + [row]) == FailedRows(tenant, m, rows)
  {
    assert (rows + [row])[..|rows|] == rows;
  }

  lemma BumpOneMore(m: ByCode, front: seq<EmpRow>, last: EmpRow)
    requires Selects(m, front + [last]) && last.Live()
    ensures var c := last.fields.employeeCode;
      && c in Bumped(m, front) && Bumped(m, front)[c] == last
      && Bumped(m, front + [last]) == Bumped(m, front)[c := Row(last.fields, last.version + 1, None)]
  {
    var c := last.fields.employeeCode;
    assert last in front + [last];
    forall i | 0 <= i < |front| ensures front[i] != last {
      assert (front + [last])[i] == front[i] && (front + [last])[|front|] == last;
    }
    assert forall d :: d in m && d != c ==> m[d] != last;
  }

  // ---- and only for exportable employees ----

  /** The row is a request for this code. */
  predicate Touches(row: SheetRow, code: string) {
    row.parsed.Data? && row.parsed.dto.employeeCode == code
  }

  lemma StepElsewhere(tenant: Tenant, m: ByCode, sheet: seq<SheetRow>, i: nat, code: string)
    requires i < |sheet| && !Touches(sheet[i], code)
    ensures var before, after := FoldRows(tenant, m, sheet[..i]), FoldRows(tenant, m, sheet[..i + 1]);
      (code in after <==> code in before) && (code in before ==> after[code] == before[code])
  {
    FoldStep(tenant, m, sheet, i);
  }

  lemma StepUpserts(tenant: Tenant, m: ByCode, sheet: seq<SheetRow>, i: nat, code: string)
    requires i < |sheet| && Touches(sheet[i], code) && code in m
    requires var before := FoldRows(tenant, m, sheet[..i]); code in before && before[code] == m[code] && !RowFails(before, sheet[i])
    ensures var after := FoldRows(tenant, m, sheet[..i + 1]);
      code in after && after[code] == UpsertedRow(tenant, m, sheet[i].parsed.dto)
  {
    FoldStep(tenant, m, sheet, i);
  }

  lemma {:induction false} UntouchedStays(tenant: Tenant, m: ByCode, sheet: seq<SheetRow>, code: string, lo: nat, hi: nat)
    requires lo <= hi <= |sheet| && forall i :: lo <= i < hi ==> !Touches(sheet[i], code)
    ensures var before, after := FoldRows(tenant, m, sheet[..lo]), FoldRows(tenant, m, sheet[..hi]);
      (code in after <==> code in before) && (code in before ==> after[code] == before[code])
    decreases hi
  {
    if lo < hi {
      UntouchedStays(tenant, m, sheet, code, lo, hi - 1);
      StepElsewhere(tenant, m, sheet, hi - 1, code);
    }
  }

  lemma ErrorsSplit(tenant: Tenant, m: ByCode, sheet: seq<SheetRow>, i: nat)
    requires i < |sheet|
    ensures FailedRows(tenant, m, sheet[..i + 1]) == []
       <==> FailedRows(tenant, m, sheet[..i]) == [] && !RowFails(FoldRows(tenant, m, sheet[..i]), sheet[i])
  {
    FoldStep(tenant, m, sheet, i);
  }

  lemma {:induction false} PrefixHasNoError(tenant: Tenant, m: ByCode, sheet: seq<SheetRow>, i: nat, n: nat)
    requires i <= n <= |sheet|
    ensures FailedRows(tenant, m, sheet[..n]) == [] ==> FailedRows(tenant, m, sheet[..i]) == []
    decreases n
  {
    if i < n {
      ErrorsSplit(tenant, m, sheet, n - 1);
      PrefixHasNoError(tenant, m, sheet, i, n - 1);
    }
  }

  /** Without errors, every row is good when its turn comes. */
  lemma NoErrorAt(tenant: Tenant, m: ByCode, sheet: seq<SheetRow>, i: nat)
    requires i < |sheet|
    ensures FailedRows(tenant, m, sheet) == [] ==> !RowFails(FoldRows(tenant, m, sheet[..i]), sheet[i])
  {
    assert sheet[..|sheet|] == sheet;
    PrefixHasNoError(tenant, m, sheet, i + 1, |sheet|);
    ErrorsSplit(tenant, m, sheet, i);
  }

  /** A code that one row asks for gets that row's upsert and nothing else. */
  lemma TouchedOnce(tenant: Tenant, m: ByCode, sheet: seq<SheetRow>, i: nat, code: string)
    requires i < |sheet| && Touches(sheet[i], code) && code in m
    requires forall j :: 0 <= j < |sheet| && j != i ==> !Touches(sheet[j], code)
    requires !RowFails(FoldRows(tenant, m, sheet[..i]), sheet[i])
    ensures code in FoldRows(tenant, m, sheet)
    ensures FoldRows(tenant, m, sheet)[code] == UpsertedRow(tenant, m, sheet[i].parsed.dto)
  {
    assert sheet[..|sheet|] == sheet;
    TouchedFirst(tenant, m, sheet, i, code);
    UntouchedStays(tenant, m, sheet, code, i + 1, |sheet|);
  }

  lemma TouchedFirst(tenant: Tenant, m: ByCode, sheet: seq<SheetRow>, i: nat, code: string)
    requires i < |sheet| && Touches(sheet[i], code) && code in m
    requires forall j :: 0 <= j < i ==> !Touches(sheet[j], code)
    requires !RowFails(FoldRows(tenant, m, sheet[..i]), sheet[i])
    ensures var after := FoldRows(tenant, m, sheet[..i + 1]);
      code in after && after[code] == UpsertedRow(tenant, m, sheet[i].parsed.dto)
  {
    assert sheet[..0] == [];
    UntouchedStays(tenant, m, sheet, code, 0, i);
    StepUpserts(tenant, m, sheet, i, code);
  }

  /** If re-importing raises every exported employee by a version and changes nothing else, all codes are trimmed. */
  lemma CodesAreTrimmed(tenant: Tenant, m: ByCode, rows: seq<EmpRow>, isEmail: string -> bool, i: nat)
    requires Selects(m, rows) && i < |rows|
    requires FoldRows(tenant, m, Reimport(rows, isEmail)) == Bumped(m, rows)
    ensures TrimStable(rows[i].fields.employeeCode)
  {
    var sheet, code := Reimport(rows, isEmail), rows[i].fields.employeeCode;
    assert rows[i] in rows && Bumped(m, rows)[code] != m[code];
    assert sheet[..0] == [] && sheet[..|sheet|] == sheet;
    if forall j :: 0 <= j < |sheet| ==> !Touches(sheet[j], code) {
      UntouchedStays(tenant, m, sheet, code, 0, |sheet|);
      assert false;
    }
    var j :| 0 <= j < |sheet| && Touches(sheet[j], code);
    ReadCode(rows[j].fields, isEmail);
    TrimIsTrimmed(rows[j].fields.employeeCode);
  }

  lemma ReadCode(f: EmpFields, isEmail: string -> bool)
    ensures ExportParsed(f, isEmail).Data? ==> ExportParsed(f, isEmail).dto.employeeCode == Trim(f.employeeCode)
  {
    ExportReadsBack(f, isEmail);
  }

  lemma IdentityNeedsExportable(tenant: Tenant, m: ByCode, rows: seq<EmpRow>, isEmail: string -> bool, i: nat)
    requires Selects(m, rows) && AllLive(rows) && i < |rows|
    requires FoldRows(tenant, m, Reimport(rows, isEmail)) == Bumped(m, rows)
    requires FailedRows(tenant, m, Reimport(rows, isEmail)) == []
    ensures Exportable(rows[i].fields, isEmail)
  {
    var sheet, code := Reimport(rows, isEmail), rows[i].fields.employeeCode;
    NoErrorAt(tenant, m, sheet, i);
    forall j | 0 <= j < |sheet| ensures Touches(sheet[j], code) <==> j == i {
      NoErrorAt(tenant, m, sheet, j);
      CodesAreTrimmed(tenant, m, rows, isEmail, j);
      ReadCode(rows[j].fields, isEmail);
      CodesDistinct(m, rows, i, j);
    }
    assert rows[i] in rows;
    TouchedOnce(tenant, m, sheet, i, code);
    ComesBackIff(rows[i].fields, isEmail);
  }

  lemma CodesDistinct(m: ByCode, rows: seq<EmpRow>, i: nat, j: nat)
    requires Selects(m, rows) && i < |rows| && j < |rows|
    ensures rows[i].fields.employeeCode == rows[j].fields.employeeCode <==> i == j
  {
    assert rows[i] in rows && rows[j] in rows;
  }

  // ---- the round trip ----

  /** No exported row is blank, so the sheet is parsed row by row, from row 2 on. */
  lemma {:induction false} ExportedSheetParses(rows: seq<EmpRow>)
    ensures var records := RowRecords(EXPORT_HEADERS, ExportSheet(rows));
      |records| == |rows|
      && forall i :: 0 <= i < |rows| ==> records[i] == RowRecord(i + 2, RecordOf(EXPORT_HEADERS, ExportRow(rows[i].fields)))
  {
    if rows != [] {
      var n := |rows| - 1;
      var sheet := ExportSheet(rows);
      ExportedSheetParses(rows[..n]);
      assert sheet[..n] == ExportSheet(rows[..n]);
      assert sheet[n][0] != Empty && sheet[n][0] in sheet[n];
    }
  }

  /** No row's own transaction fails. */
  function NoOutage(): nat -> bool {
    _ => false
  }

  lemma ExportedSheetIsReimport(rows: seq<EmpRow>, isEmail: string -> bool)
    ensures SheetOf(RowRecords(EXPORT_HEADERS, ExportSheet(rows)), isEmail, NoOutage()) == Reimport(rows, isEmail)
    ensures Readable(EXPORT_HEADERS, ExportSheet(rows)) <==> 1 <= |rows| <= 5000
  {
    ExportedSheetParses(rows);
    assert REQUIRED_HEADERS == EXPORT_HEADERS[..3];
  }

  /**
    Importing an export again, with no other writer. The import refuses the sheet if and only if it has no row or
    more rows than an import may have, whatever the employees are. A sheet that it takes gives no error, changes no
    field of any employee, and raises exactly the exported employees by one version, if and only if every one of them
    is exportable.
  */
  lemma ReimportIsIdentity(tenant: Tenant, m: ByCode, rows: seq<EmpRow>, isEmail: string -> bool)
    requires Selects(m, rows) && AllLive(rows)
    ensures Readable(EXPORT_HEADERS, ExportSheet(rows)) <==> 1 <= |rows| <= 5000
    ensures var sheet := SheetOf(RowRecords(EXPORT_HEADERS, ExportSheet(rows)), isEmail, NoOutage());
      FoldRows(tenant, m, sheet) == Bumped(m, rows) && FailedRows(tenant, m, sheet) == [] <==> AllExportable(rows, isEmail)
  {
    ExportedSheetIsReimport(rows, isEmail);
    if AllExportable(rows, isEmail) {
      ReimportFold(tenant, m, rows, isEmail);
    } else if FoldRows(tenant, m, Reimport(rows, isEmail)) == Bumped(m, rows) && FailedRows(tenant, m, Reimport(rows, isEmail)) == [] {
      forall r | r in rows ensures Exportable(r.fields, isEmail) {
        var i :| 0 <= i < |rows| && rows[i] == r;
        IdentityNeedsExportable(tenant, m, rows, isEmail, i);
      }
      assert false;
    }
  }

  lemma ShowsIsUnique(table: map<Id, EmpRow>, tenant: Tenant, m: ByCode, m': ByCode)
    requires Shows(table, tenant, m) && Shows(table, tenant, m')
    ensures m == m'
  {
    forall c | c in m ensures c in m' && m'[c] == m[c] {
      var id :| id in table && table[id] == m[c] && m[c].fields.tenantId == tenant && m[c].fields.employeeCode == c;
    }
    forall c | c in m' ensures c in m {
      var id :| id in table && table[id] == m'[c] && m'[c].fields.tenantId == tenant && m'[c].fields.employeeCode == c;
    }
  }

  /** The table holds the same data as before, with the exported employees one version up. */
  ghost predicate DataKept(result: ImportResult, table: map<Id, EmpRow>, tenant: Tenant, m: ByCode, rows: seq<EmpRow>) {
    Shows(table, tenant, Bumped(m, rows)) && result == ImportResult(Batch(COMPLETED, |rows|, |rows|, 0), [])
  }

  /** What an import reports of an exported sheet. */
  lemma ImportOfExport(
    result: ImportResult, table: map<Id, EmpRow>, tenant: Tenant, m: ByCode, rows: seq<EmpRow>, isEmail: string -> bool)
    requires Selects(m, rows) && AllLive(rows)
    requires IsImportOf(result, table, tenant, m, SheetOf(RowRecords(EXPORT_HEADERS, ExportSheet(rows)), isEmail, NoOutage()))
    ensures DataKept(result, table, tenant, m, rows) <==> AllExportable(rows, isEmail)
  {
    var sheet := SheetOf(RowRecords(EXPORT_HEADERS, ExportSheet(rows)), isEmail, NoOutage());
    ReimportIsIdentity(tenant, m, rows, isEmail);
    ExportedSheetIsReimport(rows, isEmail);
    if Shows(table, tenant, Bumped(m, rows)) {
      ShowsIsUnique(table, tenant, Bumped(m, rows), FoldRows(tenant, m, sheet));
    }
  }

  /** Exports live employees and imports the sheet as a new file. */
  method ExportThenImport(
    service: ImportService, tenant: Tenant, fileHash: string, rows: seq<EmpRow>, isEmail: string -> bool, ghost m: ByCode)
    returns (r: Reply<ImportResult>)
    requires service.Valid() && Shows(service.employees.db.rows, tenant, m) && FileKey(tenant, fileHash) !in service.batches
    requires Selects(m, rows) && AllLive(rows)
    modifies service, service.employees.db
    ensures service.Valid() && OthersUntouched(old(service.employees.db.rows), service.employees.db.rows, tenant)
    ensures r == BadRequest <==> |rows| == 0 || |rows| > 5000
    ensures r == BadRequest ==>
      service.batches == old(service.batches) && service.employees.db.Snapshot() == old(service.employees.db.Snapshot())
    ensures r != BadRequest ==>
      r.Done? && (DataKept(r.value, service.employees.db.rows, tenant, m, rows) <==> AllExportable(rows, isEmail))
  {
    var sheet := ExportEmployees(rows);
    ExportedSheetIsReimport(rows, isEmail);
    r := service.ImportEmployees(tenant, fileHash, EXPORT_HEADERS, sheet, isEmail, NoOutage(), m);
    if r != BadRequest {
      ImportOfExport(r.value, service.employees.db.rows, tenant, m, rows, isEmail);
    }
  }

  // ---- an export that cannot be imported again ----

  /** Employees 0000, 0001, ... of a tenant. */
  function Numbered4(tenant: Tenant, i: nat): EmpRow {
    Row(EmpFields(tenant, Padded(i, 4), "A B", Some("A"), Some("B"), None, None, None, None, None), 1, None)
  }

  function ManyEmployees(tenant: Tenant, n: nat): (rows: seq<EmpRow>)
    ensures |rows| == n
  {
    seq(n, i requires 0 <= i < n => Numbered4(tenant, i))
  }

  lemma CodesDiffer(i: nat, j: nat)
    requires i < 10000 && j < 10000 && Padded(i, 4) == Padded(j, 4)
    ensures i == j
  {
    assert Pow10(1) == 10 && Pow10(2) == 100 && Pow10(3) == 1000;
    ValueOfPadded(i, 4);
    ValueOfPadded(j, 4);
  }

  lemma NumberedCode(i: nat)
    ensures |Padded(i, 4)| == 4 && Trim(Padded(i, 4)) == Padded(i, 4)
  {
    PaddedIsDigits(i, 4);
    DigitIsNoSpace(Padded(i, 4)[0]);
    DigitIsNoSpace(Padded(i, 4)[3]);
    TrimIsIdentity(Padded(i, 4));
  }

  lemma DigitIsNoSpace(c: char)
    requires '0' <= c <= '9'
    ensures !IsSpace(c)
  {
  }

  lemma NumberedNames()
    ensures Trim("A") == "A" && Trim("B") == "B" && DisplayName("A", "B") == "A B"
  {
    assert !IsSpace('A') && !IsSpace('B');
    TrimIsIdentity("A");
    TrimIsIdentity("B");
    TrimIsIdentity("A B");
    assert "A" + " " + "B" == "A B";
  }

  lemma NumberedIsExportable(tenant: Tenant, i: nat, isEmail: string -> bool)
    ensures Exportable(Numbered4(tenant, i).fields, isEmail)
  {
    NumberedCode(i);
    NumberedNames();
  }

  lemma ManyAreExportable(tenant: Tenant, n: nat, isEmail: string -> bool)
    ensures AllLive(ManyEmployees(tenant, n)) && AllExportable(ManyEmployees(tenant, n), isEmail)
  {
    var rows := ManyEmployees(tenant, n);
    forall r | r in rows ensures Exportable(r.fields, isEmail) {
      var i :| 0 <= i < n && rows[i] == r;
      NumberedIsExportable(tenant, i, isEmail);
    }
  }

  /** As many as four digits can number make a table, each with a code of its own. */
  lemma {:induction false} NumberedTable(tenant: Tenant, n: nat) returns (m: ByCode)
    requires n <= 10000
    ensures Selects(m, ManyEmployees(tenant, n)) && forall c :: c in m ==> m[c] in ManyEmployees(tenant, n)
  {
    m := map[];
    if n > 0 {
      m := NumberedTable(tenant, n - 1);
      var front, last := ManyEmployees(tenant, n - 1), Numbered4(tenant, n - 1);
      assert ManyEmployees(tenant, n) == front + [last];
      NewCode(tenant, n - 1, m);
      TableWithOneMore(m, front, last);
      m := m[last.fields.employeeCode := last];
    }
  }

  lemma NewCode(tenant: Tenant, n: nat, m: ByCode)
    requires n < 10000 && Selects(m, ManyEmployees(tenant, n)) && forall c :: c in m ==> m[c] in ManyEmployees(tenant, n)
    ensures Padded(n, 4) !in m
  {
    if Padded(n, 4) in m {
      var rows := ManyEmployees(tenant, n);
      var i :| 0 <= i < n && rows[i] == m[Padded(n, 4)];
      CodesDiffer(i, n);
    }
  }

  lemma TableWithOneMore(m: ByCode, rows: seq<EmpRow>, row: EmpRow)
    requires Selects(m, rows) && (forall c :: c in m ==> m[c] in rows) && row.fields.employeeCode !in m
    ensures var m' := m[row.fields.employeeCode := row];
      Selects(m', rows + [row]) && forall c :: c in m' ==> m'[c] in rows + [row]
  {
    assert forall i :: 0 <= i < |rows| ==> rows[i] in rows;
    assert row in rows + [row];
  }

  /** A tenant with 5001 faultless employees: its export is well-formed, and importing it is refused. */
  lemma LargeExportIsRefused(tenant: Tenant, isEmail: string -> bool) returns (m: ByCode)
    ensures var rows := ManyEmployees(tenant, MAX_IMPORT_ROWS + 1);
      Selects(m, rows) && AllLive(rows) && AllExportable(rows, isEmail) && !Readable(EXPORT_HEADERS, ExportSheet(rows))
  {
    m := NumberedTable(tenant, MAX_IMPORT_ROWS + 1);
    ManyAreExportable(tenant, MAX_IMPORT_ROWS + 1, isEmail);
    ExportedSheetIsReimport(ManyEmployees(tenant, MAX_IMPORT_ROWS + 1), isEmail);
  }
}
