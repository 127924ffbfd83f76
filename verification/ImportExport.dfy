/**
  The spreadsheet import of employees: cells to records to requests, and the row loop that upserts them through
  EmployeesService.
*/
module ImportExport {
  import opened Wrappers
  import opened Texts
  import opened Calendar
  import opened RowLocking
  import opened RowTable
  import opened Employees

  // ---- cells and records ----

  /** What a cell can hold, as far as normalizeCellValue tells apart. */
  datatype Cell = Empty | Plain(text: string) | RichText(parts: seq<string>) | Link(caption: string) | Formula(result: Option<string>)

  /** A field that is present with no value is an undefined property. */
  type Record = map<string, Option<string>>

  function Joined(parts: seq<string>): string {
    if parts == [] then "" else parts[0] + Joined(parts[1..])
  }

  function NormalizeCellValue(cell: Cell): Option<string> {
    match cell
    case Empty => None
    case Plain(text) => if Trim(text) == "" then None else Some(Trim(text))
    case RichText(parts) => Some(Joined(parts))
    case Link(caption) => Some(caption)
    case Formula(result) => result
  }

  /** The parts of a rich text, one after the other. */
  lemma {:induction false} JoinedInOrder(parts: seq<string>, more: seq<string>)
    ensures Joined(parts + more) == Joined(parts) + Joined(more)
    ensures forall part :: Joined([part]) == part
  {
    if parts == [] {
      assert parts + more == more;
    } else {
      JoinedInOrder(parts[1..], more);
      assert (parts + more)[1..] == parts[1..] + more;
    }
    forall part ensures Joined([part]) == part {
      assert [part][1..] == [];
    }
  }

  /**
    What each kind of cell is read as: plain text without the white space at its ends, and nothing if it is all white
    space; the joined parts of a rich text, the caption of a link, and the cached result of a formula, as they are.
  */
  lemma CellsRead(cell: Cell)
    ensures var value := NormalizeCellValue(cell);
      match cell
      case Empty => value == None
      case Plain(text) => if forall k :: 0 <= k < |text| ==> IsSpace(text[k]) then value == None
                          else value.Some? && value.value != "" && IsCore(text, value.value)
      case RichText(parts) => value == Some(Joined(parts))
      case Link(caption) => value == Some(caption)
      case Formula(result) => value == result
  {
    if cell.Plain? {
      PlainCellReads(cell.text);
    }
  }

  lemma PlainCellReads(text: string)
    ensures Trim(text) == "" <==> forall k :: 0 <= k < |text| ==> IsSpace(text[k])
    ensures IsCore(text, Trim(text))
  {
    TrimLeavesCore(text);
    var i: nat, j: nat :| i <= j <= |text| && Trim(text) == text[i..j] && Framed(text, i, j);
    if i < j {
      assert !IsSpace(text[i]);
    }
  }

  function CellAt(row: seq<Cell>, i: nat): Cell {
    if i < |row| then row[i] else Empty
  }

  /** The cell of the last column with the header, if the header occurs. */
  function LastCell(headers: seq<string>, row: seq<Cell>, header: string): Option<Cell> {
    if headers == [] then None
    else if headers[|headers| - 1] == header then Some(CellAt(row, |headers| - 1))
    else LastCell(headers[..|headers| - 1], row, header)
  }

  /** Columns without a header are skipped; of columns with the same header the last one counts. */
  method BuildRowRecord(headers: seq<string>, row: seq<Cell>) returns (record: Record)
    ensures record == RecordOf(headers, row)
  {
    record := map[];
    for i := 0 to |headers|
      invariant record == RecordOf(headers[..i], row)
    {
      assert headers[..i + 1][..i] == headers[..i];
      if headers[i] == "" {
        continue;
      }
      record := record[headers[i] := NormalizeCellValue(CellAt(row, i))];
    }
    assert headers[..|headers|] == headers;
  }

  function RecordOf(headers: seq<string>, row: seq<Cell>): Record {
    if headers == [] then map[] else
      var n := |headers| - 1;
      var front := RecordOf(headers[..n], row);
      if headers[n] == "" then front else front[headers[n] := NormalizeCellValue(CellAt(row, n))]
  }

  lemma {:induction false} RecordHoldsLastCells(headers: seq<string>, row: seq<Cell>, header: string)
    ensures header in RecordOf(headers, row) <==> header != "" && LastCell(headers, row, header).Some?
    ensures header in RecordOf(headers, row) ==>
      RecordOf(headers, row)[header] == NormalizeCellValue(LastCell(headers, row, header).value)
  {
    if headers != [] {
      RecordHoldsLastCells(headers[..|headers| - 1], row, header);
    }
  }

  /** With distinct headers each column is read into its own field; beyond the end of the row there is nothing. */
  lemma ColumnsAreRead(headers: seq<string>, row: seq<Cell>, i: nat)
    requires i < |headers| && headers[i] != "" && forall j, k :: 0 <= j < k < |headers| ==> headers[j] != headers[k]
    ensures headers[i] in RecordOf(headers, row)
    ensures RecordOf(headers, row)[headers[i]] == if i < |row| then NormalizeCellValue(row[i]) else None
  {
    DistinctHeadersKeepColumns(headers, row, i);
    RecordHoldsLastCells(headers, row, headers[i]);
  }

  lemma {:induction false} DistinctHeadersKeepColumns(headers: seq<string>, row: seq<Cell>, i: nat)
    requires i < |headers| && forall j, k :: 0 <= j < k < |headers| ==> headers[j] != headers[k]
    ensures LastCell(headers, row, headers[i]) == Some(CellAt(row, i))
  {
    if i < |headers| - 1 {
      DistinctHeadersKeepColumns(headers[..|headers| - 1], row, i);
    }
  }

  /** A data row of the sheet with its 1-based number. */
  datatype RowRecord = RowRecord(number: nat, record: Record)

  const REQUIRED_HEADERS := ["employeeCode", "firstName", "lastName"]
  const MAX_IMPORT_ROWS := 5000

  predicate Blank(row: seq<Cell>) {
    forall c :: c in row ==> c == Empty
  }

  /** The records of the rows that are not blank; the header is row 1. */
  function RowRecords(headers: seq<string>, rows: seq<seq<Cell>>): seq<RowRecord> {
    if rows == [] then [] else
      var n := |rows| - 1;
      RowRecords(headers, rows[..n]) + (if Blank(rows[n]) then [] else [RowRecord(n + 2, RecordOf(headers, rows[n]))])
  }

  predicate Readable(headers: seq<string>, rows: seq<seq<Cell>>) {
    (forall h :: h in REQUIRED_HEADERS ==> h in headers) && 1 <= |RowRecords(headers, rows)| <= MAX_IMPORT_ROWS
  }

  /** Reads a sheet, or refuses it: a required header is missing, it has no data row, or it has too many. */
  method ParseWorkbook(headers: seq<string>, rows: seq<seq<Cell>>) returns (r: Option<seq<RowRecord>>)
    ensures r.Some? <==> Readable(headers, rows)
    ensures r.Some? <==> "employeeCode" in headers && "firstName" in headers && "lastName" in headers
                         && 1 <= |RowRecords(headers, rows)| <= 5000
    ensures r.Some? ==> r.value == RowRecords(headers, rows)
  {
    if exists h :: h in REQUIRED_HEADERS && h !in headers {
      return None;
    }
    var rowRecords: seq<RowRecord> := [];
    for i := 0 to |rows|
      invariant rowRecords == RowRecords(headers, rows[..i])
    {
      assert rows[..i + 1][..i] == rows[..i];
      if Blank(rows[i]) {
        continue;
      }
      var record := BuildRowRecord(headers, rows[i]);
      rowRecords := rowRecords + [RowRecord(i + 2, record)];
    }
    assert rows[..|rows|] == rows;
    if |rowRecords| == 0 || |rowRecords| > MAX_IMPORT_ROWS {
      return None;
    }
    return Some(rowRecords);
  }

  /** The numbers rise strictly, and each record is that of its own row. */
  ghost predicate Numbered(headers: seq<string>, rows: seq<seq<Cell>>, records: seq<RowRecord>) {
    && (forall i, j :: 0 <= i < j < |records| ==> records[i].number < records[j].number)
    && (forall i {:trigger records[i]} :: 0 <= i < |records| ==>
          2 <= records[i].number < |rows| + 2 && records[i].record == RecordOf(headers, rows[records[i].number - 2]))
  }

  lemma {:induction false} RowsAreNumbered(headers: seq<string>, rows: seq<seq<Cell>>)
    ensures Numbered(headers, rows, RowRecords(headers, rows))
  {
    if rows != [] {
      var n := |rows| - 1;
      RowsAreNumbered(headers, rows[..n]);
      var front, records := RowRecords(headers, rows[..n]), RowRecords(headers, rows);
      forall i | 0 <= i < |records|
        ensures 2 <= records[i].number < |rows| + 2 && records[i].record == RecordOf(headers, rows[records[i].number - 2])
      {
        if i < |front| {
          assert records[i] == front[i] && rows[..n][front[i].number - 2] == rows[front[i].number - 2];
        }
      }
    }
  }

  predicate HasNumber(records: seq<RowRecord>, n: nat) {
    exists i :: 0 <= i < |records| && records[i].number == n
  }

  lemma OneMoreNumber(records: seq<RowRecord>, record: RowRecord, n: nat)
    ensures HasNumber(records + [record], n) <==> HasNumber(records, n) || record.number == n
  {
    if i :| 0 <= i < |records| && records[i].number == n {
      assert (records + [record])[i].number == n;
    }
    assert (records + [record])[|records|] == record;
  }

  /** Every row with a cell in it is read, wherever that cell is, and no other row. */
  lemma {:induction false} RowsWithCellsAreRead(headers: seq<string>, rows: seq<seq<Cell>>, n: nat)
    ensures HasNumber(RowRecords(headers, rows), n) <==> 2 <= n < |rows| + 2 && HasCell(rows[n - 2])
  {
    if rows != [] {
      var last := |rows| - 1;
      RowsWithCellsAreRead(headers, rows[..last], n);
      assert 2 <= n < last + 2 ==> rows[..last][n - 2] == rows[n - 2];
      BlankIffNoCell(rows[last]);
      if Blank(rows[last]) {
        assert RowRecords(headers, rows) == RowRecords(headers, rows[..last]);
      }
      OneMoreNumber(RowRecords(headers, rows[..last]), RowRecord(last + 2, RecordOf(headers, rows[last])), n);
    }
  }

  predicate HasCell(row: seq<Cell>) {
    exists c :: 0 <= c < |row| && !row[c].Empty?
  }

  lemma BlankIffNoCell(row: seq<Cell>)
    ensures Blank(row) <==> !HasCell(row)
  {
    if c :| 0 <= c < |row| && !row[c].Empty? {
      assert row[c] in row;
    }
  }

  // ---- the schema ----

  function Field(record: Record, name: string): Option<string> {
    if name in record then record[name] else None
  }

  predicate RequiredOk(value: Option<string>, max: nat) {
    value.Some? && 1 <= |value.value| <= max
  }

  predicate OptionalOk(value: Option<string>, max: nat) {
    value.Some? ==> |value.value| <= max
  }

  /** createEmployeeSchema; what counts as an e-mail address is left to the schema library. */
  predicate SchemaAccepts(dto: CreateDto, isEmail: string -> bool) {
    && RequiredOk(Some(dto.employeeCode), 64) && RequiredOk(Some(dto.firstName), 128) && RequiredOk(Some(dto.lastName), 128)
    && (dto.email.Some? ==> isEmail(dto.email.value))
    && OptionalOk(dto.department, 128) && OptionalOk(dto.jobTitle, 128) && OptionalOk(dto.branch, 128)
    && OptionalOk(dto.responsibleOfficerId, 128)
  }

  datatype Parsed = Data(dto: CreateDto) | Invalid

  function ParseFields(
    code: Option<string>, first: Option<string>, last: Option<string>, email: Option<string>, department: Option<string>,
    jobTitle: Option<string>, branch: Option<string>, officer: Option<string>, isEmail: string -> bool): Parsed
  {
    if code.None? || first.None? || last.None? then Invalid else
      var dto := CreateDto(code.value, first.value, last.value, email, department, jobTitle, branch, officer);
      if SchemaAccepts(dto, isEmail) then Data(dto) else Invalid
  }

  function ParseEmployeeImportRow(record: Record, isEmail: string -> bool): Parsed {
    ParseFields(Field(record, "employeeCode"), Field(record, "firstName"), Field(record, "lastName"), Field(record, "email"),
                Field(record, "department"), Field(record, "jobTitle"), Field(record, "branch"),
                Field(record, "responsibleOfficerId"), isEmail)
  }

  /** Which records become requests: the limits of the schema, field by field. */
  lemma RowIsAcceptedIff(record: Record, isEmail: string -> bool)
    ensures var code, first, last := Field(record, "employeeCode"), Field(record, "firstName"), Field(record, "lastName");
      ParseEmployeeImportRow(record, isEmail).Data? <==>
        && code.Some? && 1 <= |code.value| <= 64
        && first.Some? && 1 <= |first.value| <= 128 && last.Some? && 1 <= |last.value| <= 128
        && (Field(record, "email").Some? ==> isEmail(Field(record, "email").value))
        && (Field(record, "department").Some? ==> |Field(record, "department").value| <= 128)
        && (Field(record, "jobTitle").Some? ==> |Field(record, "jobTitle").value| <= 128)
        && (Field(record, "branch").Some? ==> |Field(record, "branch").value| <= 128)
        && (Field(record, "responsibleOfficerId").Some? ==> |Field(record, "responsibleOfficerId").value| <= 128)
  {
  }

  // ---- the simple form of an import: a fold over a map from codes to employees ----

  type ByCode = map<string, EmpRow>

  function PatchOf(dto: CreateDto): UpdateDto {
    UpdateDto(Some(dto.firstName), Some(dto.lastName), dto.email, dto.department, dto.jobTitle, dto.branch, dto.responsibleOfficerId)
  }

  /** Importing the row of a new employee once more changes nothing. */
  lemma CreateThenUpdateKeeps(tenant: Tenant, dto: CreateDto)
    ensures var f := Employees.CreateFields(NewEmployee(tenant, dto)); Employees.UpdateFields(f, PatchOf(dto)) == f
  {
  }

  /** An archived code refuses the row. */
  predicate Refused(m: ByCode, dto: CreateDto) {
    dto.employeeCode in m && !m[dto.employeeCode].Live()
  }

  /** The row a code has after its request. */
  function UpsertedRow(tenant: Tenant, m: ByCode, dto: CreateDto): EmpRow {
    if dto.employeeCode in m then
      var r := m[dto.employeeCode];
      Row(Employees.UpdateFields(r.fields, PatchOf(dto)), r.version + 1, None)
    else
      Row(Employees.CreateFields(NewEmployee(tenant, dto)), 1, None)
  }

  function Upsert(tenant: Tenant, m: ByCode, dto: CreateDto): ByCode {
    if Refused(m, dto) then m else m[dto.employeeCode := UpsertedRow(tenant, m, dto)]
  }

  /** A numbered row of the sheet, and whether its own transaction fails for a reason outside the import. */
  datatype SheetRow = SheetRow(number: nat, parsed: Parsed, outage: bool)

  predicate RowFails(m: ByCode, row: SheetRow) {
    row.parsed.Invalid? || row.outage || Refused(m, row.parsed.dto)
  }

  function FoldRows(tenant: Tenant, m: ByCode, rows: seq<SheetRow>): ByCode {
    if rows == [] then m else
      var before := FoldRows(tenant, m, rows[..|rows| - 1]);
      var row := rows[|rows| - 1];
      if RowFails(before, row) then before else Upsert(tenant, before, row.parsed.dto)
  }

  /** The numbers of the rows that end up in the error list. */
  function FailedRows(tenant: Tenant, m: ByCode, rows: seq<SheetRow>): seq<nat> {
    if rows == [] then [] else
      var front, row := rows[..|rows| - 1], rows[|rows| - 1];
      FailedRows(tenant, m, front) + (if RowFails(FoldRows(tenant, m, front), row) then [row.number] else [])
  }

  // ---- the employees table seen by code ----

  ghost predicate UniqueCodes(rows: map<Id, EmpRow>) {
    forall i, j {:trigger rows[i], rows[j]} :: i in rows && j in rows && i != j ==> !SameKey(rows[i].fields, rows[j].fields)
  }

  /** m holds exactly the tenant's rows, archived ones included, by code. */
  ghost predicate Shows(rows: map<Id, EmpRow>, tenant: Tenant, m: ByCode) {
    && (forall id {:trigger rows[id]} :: id in rows && rows[id].fields.tenantId == tenant ==>
          rows[id].fields.employeeCode in m && m[rows[id].fields.employeeCode] == rows[id])
    && (forall c {:trigger m[c]} :: c in m ==>
          exists id {:trigger rows[id]} :: id in rows && rows[id] == m[c] && m[c].fields.tenantId == tenant && m[c].fields.employeeCode == c)
  }

  ghost predicate OthersUntouched(rows: map<Id, EmpRow>, rows': map<Id, EmpRow>, tenant: Tenant) {
    && (forall id :: id in rows && rows[id].fields.tenantId != tenant ==> id in rows' && rows'[id] == rows[id])
    && (forall id :: id in rows' && rows'[id].fields.tenantId != tenant ==> id in rows && rows'[id] == rows[id])
  }

  lemma CodesShown(rows: map<Id, EmpRow>, tenant: Tenant, m: ByCode, code: string)
    requires Shows(rows, tenant, m)
    ensures code in m <==> exists id :: id in rows && rows[id].fields.tenantId == tenant && rows[id].fields.employeeCode == code
  {
    if code in m {
      var row := m[code];
      assert row == m[code];
    }
  }

  lemma WriteKeepsCodesUnique(rows: map<Id, EmpRow>, tenant: Tenant, m: ByCode, id: Id, row: EmpRow)
    requires UniqueCodes(rows) && Shows(rows, tenant, m) && row.fields.tenantId == tenant
    requires if id in rows then SameKey(rows[id].fields, row.fields) else row.fields.employeeCode !in m
    ensures UniqueCodes(rows[id := row])
  {
    var rows' := rows[id := row];
    forall i, j | i in rows' && j in rows' && i != j ensures !SameKey(rows'[i].fields, rows'[j].fields) {
      if i == id || j == id {
        var k := if i == id then j else i;
        assert rows'[k] == rows[k];
        assert id in rows ==> !SameKey(rows[id].fields, rows[k].fields);
      } else {
        assert !SameKey(rows[i].fields, rows[j].fields);
      }
    }
  }

  lemma WriteShows(rows: map<Id, EmpRow>, tenant: Tenant, m: ByCode, id: Id, row: EmpRow)
    requires UniqueCodes(rows) && Shows(rows, tenant, m) && row.fields.tenantId == tenant
    requires if id in rows then SameKey(rows[id].fields, row.fields) else row.fields.employeeCode !in m
    ensures UniqueCodes(rows[id := row]) && Shows(rows[id := row], tenant, m[row.fields.employeeCode := row])
    ensures OthersUntouched(rows, rows[id := row], tenant)
  {
    WriteKeepsCodesUnique(rows, tenant, m, id, row);
    var rows', code := rows[id := row], row.fields.employeeCode;
    var m' := m[code := row];
    forall c | c in m'
      ensures exists i {:trigger rows'[i]} :: i in rows' && rows'[i] == m'[c] && m'[c].fields.tenantId == tenant && m'[c].fields.employeeCode == c
    {
      if c == code {
        assert rows'[id] == m'[c];
      } else {
        var i :| i in rows && rows[i] == m[c] && m[c].fields.tenantId == tenant && m[c].fields.employeeCode == c;
        assert rows'[i] == m'[c];
      }
    }
    forall i | i in rows' && rows'[i].fields.tenantId == tenant
      ensures rows'[i].fields.employeeCode in m' && m'[rows'[i].fields.employeeCode] == rows'[i]
    {
      if i != id {
        assert rows'[i] == rows[i] && !SameKey(rows'[i].fields, rows'[id].fields);
      }
    }
  }

  // ---- the import ----

  datatype Outcome = SUCCESS | FAILED | PARTIAL

  datatype FileKey = FileKey(tenant: Tenant, fileHash: string)

  datatype BatchStatus = PROCESSING | COMPLETED

  datatype Batch = Batch(status: BatchStatus, totalRows: nat, processedRows: nat, errorRows: nat)

  datatype ImportResult = ImportResult(batch: Batch, errors: seq<nat>)

  /** The audit entry of a completed batch. */
  datatype BatchCompleted = BatchCompleted(key: FileKey, batch: Batch, outcome: Outcome)

  function OutcomeOf(batch: Batch): Outcome {
    if batch.errorRows == 0 then SUCCESS else if batch.processedRows == 0 then FAILED else PARTIAL
  }

  /** The parsed rows of a sheet; outage says whose own transaction fails for a reason outside the import. */
  function SheetOf(records: seq<RowRecord>, isEmail: string -> bool, outage: nat -> bool): (r: seq<SheetRow>)
    ensures |r| == |records|
  {
    seq(|records|, i requires 0 <= i < |records| =>
      SheetRow(records[i].number, ParseEmployeeImportRow(records[i].record, isEmail), outage(records[i].number)))
  }

  /** The table is the fold over the sheet, the errors are its bad rows in rising order, and the batch counts both. */
  ghost predicate IsImportOf(result: ImportResult, rows: map<Id, EmpRow>, tenant: Tenant, m: ByCode, sheet: seq<SheetRow>) {
    && Shows(rows, tenant, FoldRows(tenant, m, sheet))
    && result.errors == FailedRows(tenant, m, sheet) && Rising(result.errors)
    && result.batch.status == COMPLETED && result.batch.totalRows == |sheet|
    && result.batch.errorRows == |result.errors| && result.batch.processedRows + result.batch.errorRows == result.batch.totalRows
  }

  class ImportService {
    const employees: EmployeesService
    var batches: map<FileKey, Batch>
    var audit: seq<BatchCompleted>
    var nextId: Id
    var nextTx: TxId

    /** No other writer is at work, and fresh ids are fresh. */
    ghost predicate Valid()
      reads this, employees.db
    {
      var db := employees.db;
      && employees.Valid() && UniqueCodes(db.rows)
      && db.txs == map[] && db.holders == map[]
      && forall id :: id in db.rows ==> id < nextId
    }

    constructor (now: Clock)
      ensures Valid() && fresh(employees) && fresh(employees.db)
    {
      employees := new EmployeesService(now);
      batches, audit, nextId, nextTx := map[], [], 0, 0;
    }

    /**
      A whole import. A file seen before is answered from its batch and changes nothing; a sheet that cannot be
      read changes nothing; any other sheet is folded into the tenant's employees, and its batch records the
      counts of a list of errors in row order.
    */
    method ImportEmployees(
      tenant: Tenant, fileHash: string, headers: seq<string>, cells: seq<seq<Cell>>, isEmail: string -> bool,
      outage: nat -> bool, ghost m: ByCode)
      returns (r: Reply<ImportResult>)
      requires Valid() && Shows(employees.db.rows, tenant, m)
      modifies this, employees.db
      ensures Valid() && OthersUntouched(old(employees.db.rows), employees.db.rows, tenant)
      ensures FileKey(tenant, fileHash) in old(batches) ==> r == Done(ImportResult(old(batches)[FileKey(tenant, fileHash)], []))
      ensures FileKey(tenant, fileHash) !in old(batches) ==> (r == BadRequest <==> !Readable(headers, cells))
      ensures FileKey(tenant, fileHash) in old(batches) || r == BadRequest ==>
        batches == old(batches) && audit == old(audit) && employees.db.Snapshot() == old(employees.db.Snapshot())
      ensures FileKey(tenant, fileHash) !in old(batches) && r != BadRequest ==>
        && r.Done? && batches == old(batches)[FileKey(tenant, fileHash) := r.value.batch]
        && audit == old(audit) + [BatchCompleted(FileKey(tenant, fileHash), r.value.batch, OutcomeOf(r.value.batch))]
        && IsImportOf(r.value, employees.db.rows, tenant, m, SheetOf(RowRecords(headers, cells), isEmail, outage))
    {
      var key := FileKey(tenant, fileHash);
      if key in batches {
        return Done(ImportResult(batches[key], []));
      }
      var records := ParseWorkbook(headers, cells);
      if records.None? {
        return BadRequest;
      }
      ErrorsOfSheetRise(tenant, m, headers, cells, isEmail, outage);
      var result := ImportSheet(key, SheetOf(records.value, isEmail, outage), m);
      return Done(result);
    }

    /** The batch row is inserted before the row loop and completed after it. */
    method ImportSheet(key: FileKey, sheet: seq<SheetRow>, ghost m: ByCode) returns (r: ImportResult)
      requires Valid() && Shows(employees.db.rows, key.tenant, m) && key !in batches
      requires Rising(FailedRows(key.tenant, m, sheet))
      modifies this, employees.db
      ensures Valid() && OthersUntouched(old(employees.db.rows), employees.db.rows, key.tenant)
      ensures IsImportOf(r, employees.db.rows, key.tenant, m, sheet) && batches == old(batches)[key := r.batch]
      ensures audit == old(audit) + [BatchCompleted(key, r.batch, OutcomeOf(r.batch))]
    {
      var processedRows, errors, outcome := StartBatch(key, sheet, m);
      var batch := Batch(COMPLETED, |sheet|, processedRows, |errors|);
      batches, audit := batches[key := batch], audit + [BatchCompleted(key, batch, outcome)];
      return ImportResult(batch, errors);
    }

    /** The batch row, and then the row loop. */
    method StartBatch(key: FileKey, sheet: seq<SheetRow>, ghost m: ByCode)
      returns (processedRows: nat, errors: seq<nat>, outcome: Outcome)
      requires Valid() && Shows(employees.db.rows, key.tenant, m) && key !in batches
      modifies this, employees.db
      ensures Valid() && batches == old(batches)[key := Batch(PROCESSING, |sheet|, 0, 0)] && audit == old(audit)
      ensures outcome == OutcomeOf(Batch(COMPLETED, |sheet|, processedRows, |errors|))
      ensures Reached(old(employees.db.rows), employees.db.rows, key.tenant, m, sheet, processedRows, errors)
    {
      batches := batches[key := Batch(PROCESSING, |sheet|, 0, 0)];
      processedRows, errors, outcome := ImportRows(key.tenant, sheet, m);
    }

    /** Reads the row of the code, archived or not, and updates it at the version just read, or creates it. */
    method UpsertEmployeeRow(tenant: Tenant, dto: CreateDto, ghost m: ByCode) returns (ok: bool)
      requires Valid() && Shows(employees.db.rows, tenant, m)
      modifies this`nextId, this`nextTx, employees.db
      ensures Valid() && ok == !Refused(m, dto)
      ensures Shows(employees.db.rows, tenant, Upsert(tenant, m, dto))
      ensures OthersUntouched(old(employees.db.rows), employees.db.rows, tenant)
    {
      var rows := employees.db.rows;
      CodesShown(rows, tenant, m, dto.employeeCode);
      if id :| id in rows && rows[id].fields.tenantId == tenant && rows[id].fields.employeeCode == dto.employeeCode {
        assert m[dto.employeeCode] == rows[id];
        if rows[id].deletedAt.Some? {
          return false;
        }
        UpdateExisting(tenant, id, dto, m);
      } else {
        CreateNew(tenant, dto, m);
      }
      return true;
    }

    method UpdateExisting(tenant: Tenant, id: Id, dto: CreateDto, ghost m: ByCode)
      requires Valid() && Shows(employees.db.rows, tenant, m)
      requires id in employees.db.rows && employees.db.rows[id].Live()
      requires dto.employeeCode in m && m[dto.employeeCode] == employees.db.rows[id]
      requires employees.db.rows[id].fields.tenantId == tenant && employees.db.rows[id].fields.employeeCode == dto.employeeCode
      modifies this`nextTx, employees.db
      ensures Valid() && Shows(employees.db.rows, tenant, Upsert(tenant, m, dto))
      ensures OthersUntouched(old(employees.db.rows), employees.db.rows, tenant)
    {
      ghost var rows := employees.db.rows;
      nextTx := nextTx + 1;
      var was := employees.db.rows[id];
      var r := employees.Update(nextTx, id, was.version, PatchOf(dto));
      assert r.value == UpsertedRow(tenant, m, dto);
      WriteShows(rows, tenant, m, id, r.value);
    }

    method CreateNew(tenant: Tenant, dto: CreateDto, ghost m: ByCode)
      requires Valid() && Shows(employees.db.rows, tenant, m) && dto.employeeCode !in m
      modifies this`nextId, this`nextTx, employees.db
      ensures Valid() && Shows(employees.db.rows, tenant, Upsert(tenant, m, dto))
      ensures OthersUntouched(old(employees.db.rows), employees.db.rows, tenant)
    {
      ghost var rows := employees.db.rows;
      nextTx := nextTx + 1;
      var r := employees.Create(nextTx, nextId, tenant, dto);
      WriteShows(rows, tenant, m, nextId, r.value);
      nextId := nextId + 1;
    }

    /** One turn of the loop: a parse error, a failed transaction and a refused row are errors of that row alone. */
    method ImportRow(tenant: Tenant, row: SheetRow, ghost m: ByCode) returns (ok: bool)
      requires Valid() && Shows(employees.db.rows, tenant, m)
      modifies this`nextId, this`nextTx, employees.db
      ensures Valid() && ok == !RowFails(m, row)
      ensures Shows(employees.db.rows, tenant, if ok then Upsert(tenant, m, row.parsed.dto) else m)
      ensures OthersUntouched(old(employees.db.rows), employees.db.rows, tenant)
    {
      if row.parsed.Invalid? || row.outage {
        return false;
      }
      ok := UpsertEmployeeRow(tenant, row.parsed.dto, m);
    }

    /**
      The row loop of importEmployees: whatever the sheet holds, the tenant's table becomes the fold over the
      good rows, the counters add up, and the error list names the bad rows in order.
    */
    method ImportRows(tenant: Tenant, rows: seq<SheetRow>, ghost m: ByCode)
      returns (processedRows: nat, errors: seq<nat>, outcome: Outcome)
      requires Valid() && Shows(employees.db.rows, tenant, m)
      modifies this`nextId, this`nextTx, employees.db
      ensures Valid() && Shows(employees.db.rows, tenant, FoldRows(tenant, m, rows))
      ensures OthersUntouched(old(employees.db.rows), employees.db.rows, tenant)
      ensures processedRows + |errors| == |rows| && errors == FailedRows(tenant, m, rows)
      ensures outcome == SUCCESS <==> errors == []
      ensures outcome == FAILED <==> errors != [] && |errors| == |rows|
    {
      processedRows, errors := RowLoop(tenant, rows, m);
      outcome := if errors == [] then SUCCESS else if processedRows == 0 then FAILED else PARTIAL;
    }

    method RowLoop(tenant: Tenant, rows: seq<SheetRow>, ghost m: ByCode) returns (processedRows: nat, errors: seq<nat>)
      requires Valid() && Shows(employees.db.rows, tenant, m)
      modifies this`nextId, this`nextTx, employees.db
      ensures Valid() && Reached(old(employees.db.rows), employees.db.rows, tenant, m, rows, processedRows, errors)
    {
      processedRows, errors := 0, [];
      ghost var r0 := employees.db.rows;
      for i := 0 to |rows|
        invariant Valid() && Reached(r0, employees.db.rows, tenant, m, rows[..i], processedRows, errors)
      {
        var ok := ImportNext(tenant, rows, i, r0, m, processedRows, errors);
        if ok {
          processedRows := processedRows + 1;
        } else {
          errors := errors + [rows[i].number];
        }
      }
      assert rows[..|rows|] == rows;
    }

    method ImportNext(
      tenant: Tenant, rows: seq<SheetRow>, i: nat, ghost r0: map<Id, EmpRow>, ghost m: ByCode, ghost processed: nat,
      ghost errors: seq<nat>)
      returns (ok: bool)
      requires i < |rows| && Valid() && Reached(r0, employees.db.rows, tenant, m, rows[..i], processed, errors)
      modifies this`nextId, this`nextTx, employees.db
      ensures Valid()
      ensures Reached(r0, employees.db.rows, tenant, m, rows[..i + 1],
                      if ok then processed + 1 else processed, if ok then errors else errors + [rows[i].number])
    {
      ghost var r1 := employees.db.rows;
      ok := ImportRow(tenant, rows[i], FoldRows(tenant, m, rows[..i]));
      ReachedStep(r0, r1, employees.db.rows, tenant, m, rows, i, processed, errors);
    }
  }

  lemma FoldStep(tenant: Tenant, m: ByCode, rows: seq<SheetRow>, i: nat)
    requires i < |rows|
    ensures var front := FoldRows(tenant, m, rows[..i]);
      && FoldRows(tenant, m, rows[..i + 1]) == (if RowFails(front, rows[i]) then front else Upsert(tenant, front, rows[i].parsed.dto))
      && FailedRows(tenant, m, rows[..i + 1]) == FailedRows(tenant, m, rows[..i]) + (if RowFails(front, rows[i]) then [rows[i].number] else [])
  {
    assert rows[..i + 1][..i] == rows[..i];
  }

  lemma OthersStayUntouched(r0: map<Id, EmpRow>, r1: map<Id, EmpRow>, r2: map<Id, EmpRow>, tenant: Tenant)
    requires OthersUntouched(r0, r1, tenant) && OthersUntouched(r1, r2, tenant)
    ensures OthersUntouched(r0, r2, tenant)
  {
  }

  /** The state of the row loop after the rows `front`. */
  ghost predicate Reached(
    r0: map<Id, EmpRow>, r1: map<Id, EmpRow>, tenant: Tenant, m: ByCode, front: seq<SheetRow>, processed: nat, errors: seq<nat>)
  {
    && Shows(r1, tenant, FoldRows(tenant, m, front)) && OthersUntouched(r0, r1, tenant)
    && processed + |errors| == |front| && errors == FailedRows(tenant, m, front)
  }

  lemma ReachedStep(
    r0: map<Id, EmpRow>, r1: map<Id, EmpRow>, r2: map<Id, EmpRow>, tenant: Tenant, m: ByCode, rows: seq<SheetRow>, i: nat,
    processed: nat, errors: seq<nat>)
    requires i < |rows| && Reached(r0, r1, tenant, m, rows[..i], processed, errors) && OthersUntouched(r1, r2, tenant)
    requires var front, row := FoldRows(tenant, m, rows[..i]), rows[i];
      Shows(r2, tenant, if RowFails(front, row) then front else Upsert(tenant, front, row.parsed.dto))
    ensures if RowFails(FoldRows(tenant, m, rows[..i]), rows[i])
            then Reached(r0, r2, tenant, m, rows[..i + 1], processed, errors + [rows[i].number])
            else Reached(r0, r2, tenant, m, rows[..i + 1], processed + 1, errors)
  {
    FoldStep(tenant, m, rows, i);
    OthersStayUntouched(r0, r1, r2, tenant);
  }

  predicate Rising(numbers: seq<nat>) {
    forall i, j :: 0 <= i < j < |numbers| ==> numbers[i] < numbers[j]
  }

  /** The error list rises strictly and names only rows of the sheet. */
  lemma {:induction false} ErrorsRise(tenant: Tenant, m: ByCode, rows: seq<SheetRow>)
    requires forall i, j :: 0 <= i < j < |rows| ==> rows[i].number < rows[j].number
    ensures Rising(FailedRows(tenant, m, rows))
    ensures forall n :: n in FailedRows(tenant, m, rows) ==> exists i :: 0 <= i < |rows| && rows[i].number == n
  {
    if rows != [] {
      var front := rows[..|rows| - 1];
      ErrorsRise(tenant, m, front);
      forall n | n in FailedRows(tenant, m, front) ensures n < rows[|rows| - 1].number {
        var i :| 0 <= i < |front| && front[i].number == n;
        assert rows[i].number == n;
      }
      var e := FailedRows(tenant, m, front);
      assert forall i :: 0 <= i < |e| ==> e[i] in e;
      forall n | n in FailedRows(tenant, m, rows) ensures exists i :: 0 <= i < |rows| && rows[i].number == n {
        if n in FailedRows(tenant, m, front) {
          var i :| 0 <= i < |front| && front[i].number == n;
          assert rows[i].number == n;
        } else {
          assert rows[|rows| - 1].number == n;
        }
      }
    }
  }

  lemma ErrorsOfSheetRise(
    tenant: Tenant, m: ByCode, headers: seq<string>, cells: seq<seq<Cell>>, isEmail: string -> bool, outage: nat -> bool)
    ensures Rising(FailedRows(tenant, m, SheetOf(RowRecords(headers, cells), isEmail, outage)))
  {
    RowsAreNumbered(headers, cells);
    ErrorsRise(tenant, m, SheetOf(RowRecords(headers, cells), isEmail, outage));
  }
}
