/** EmployeesService: create, update and archive of employees, whose codes are unique within a tenant. */
module Employees {
  import opened Wrappers
  import opened Texts
  import opened Calendar
  import opened RowLocking
  import opened RowTable

  type Tenant = nat

  /** Row.deletedAt also stands for the status column, which is 'archived' exactly when it is set. */
  datatype EmpFields = EmpFields(
    tenantId: Tenant, employeeCode: string, fullName: string, firstName: Option<string>, lastName: Option<string>,
    email: Option<string>, department: Option<string>, jobTitle: Option<string>, branch: Option<string>,
    responsibleOfficerId: Option<string>)

  datatype CreateDto = CreateDto(
    employeeCode: string, firstName: string, lastName: string, email: Option<string>, department: Option<string>,
    jobTitle: Option<string>, branch: Option<string>, responsibleOfficerId: Option<string>)

  datatype UpdateDto = UpdateDto(
    firstName: Option<string>, lastName: Option<string>, email: Option<string>, department: Option<string>,
    jobTitle: Option<string>, branch: Option<string>, responsibleOfficerId: Option<string>)

  datatype NewEmployee = NewEmployee(tenantId: Tenant, dto: CreateDto)

  type EmpRow = Row<EmpFields>
  type EmpAction = Action<NewEmployee, UpdateDto>
  type EmpService = Service<EmpFields, NewEmployee, UpdateDto>

  function DisplayName(firstName: string, lastName: string): string {
    Trim(firstName + " " + lastName)
  }

  function OrEmpty(s: Option<string>): string {
    if s.Some? then s.value else ""
  }

  function CreateFields(n: NewEmployee): EmpFields {
    var dto := n.dto;
    EmpFields(n.tenantId, dto.employeeCode, DisplayName(dto.firstName, dto.lastName), Some(dto.firstName), Some(dto.lastName),
              dto.email, dto.department, dto.jobTitle, dto.branch, dto.responsibleOfficerId)
  }

  function UpdateFields(before: EmpFields, dto: UpdateDto): EmpFields {
    var firstName, lastName := Coalesce(dto.firstName, before.firstName), Coalesce(dto.lastName, before.lastName);
    var name := DisplayName(OrEmpty(firstName), OrEmpty(lastName));
    before.(
      firstName := firstName,
      lastName := lastName,
      fullName := if name != "" then name else before.fullName,
      email := Coalesce(dto.email, before.email),
      department := Coalesce(dto.department, before.department),
      jobTitle := Coalesce(dto.jobTitle, before.jobTitle),
      branch := Coalesce(dto.branch, before.branch),
      responsibleOfficerId := Coalesce(dto.responsibleOfficerId, before.responsibleOfficerId))
  }

  // ---- what a creation stores ----

  /** A new employee holds each value of its request; its full name is the two names, without white space at the ends. */
  ghost predicate IsCreationOf(n: NewEmployee, f: EmpFields) {
    && f.tenantId == n.tenantId && f.employeeCode == n.dto.employeeCode
    && f.firstName == Some(n.dto.firstName) && f.lastName == Some(n.dto.lastName)
    && f.email == n.dto.email && f.department == n.dto.department && f.jobTitle == n.dto.jobTitle
    && f.branch == n.dto.branch && f.responsibleOfficerId == n.dto.responsibleOfficerId
    && IsCore(n.dto.firstName + " " + n.dto.lastName, f.fullName)
  }

  lemma CreationStores(n: NewEmployee)
    ensures IsCreationOf(n, CreateFields(n))
  {
    TrimLeavesCore(n.dto.firstName + " " + n.dto.lastName);
  }

  // ---- what an update means ----

  /** The later request wins, field by field. */
  function Over(p: UpdateDto, q: UpdateDto): UpdateDto {
    UpdateDto(Coalesce(q.firstName, p.firstName), Coalesce(q.lastName, p.lastName), Coalesce(q.email, p.email),
              Coalesce(q.department, p.department), Coalesce(q.jobTitle, p.jobTitle), Coalesce(q.branch, p.branch),
              Coalesce(q.responsibleOfficerId, p.responsibleOfficerId))
  }

  function NameOf(f: EmpFields): string {
    DisplayName(OrEmpty(f.firstName), OrEmpty(f.lastName))
  }

  /**
    Two updates in a row are the one that merges them, unless the first gives a name that the second blanks: the
    full name then keeps the name in between.
  */
  lemma UpdatesCompose(f: EmpFields, p: UpdateDto, q: UpdateDto)
    ensures var f1 := UpdateFields(f, p); var f2 := UpdateFields(f1, q);
      f2 == UpdateFields(f, Over(p, q)) <==> NameOf(f2) != "" || NameOf(f1) == "" || NameOf(f1) == f.fullName
  {
    var f1 := UpdateFields(f, p);
    var f2 := UpdateFields(f1, q);
    var g := UpdateFields(f, Over(p, q));
    assert f2.firstName == g.firstName && f2.lastName == g.lastName;
    assert NameOf(f2) == NameOf(g);
  }

  /** An update that names nothing keeps everything; the full name is derived anew only from names that are there. */
  lemma EmptyUpdateKeeps(f: EmpFields)
    ensures var g := UpdateFields(f, UpdateDto(None, None, None, None, None, None, None));
      && g.(fullName := f.fullName) == f
      && (f.firstName.None? && f.lastName.None? ==> g == f)
  {
    TrimIsIdentity(" ");
    if f.firstName.None? && f.lastName.None? {
      TrimLeavesCore(" ");
    }
  }

  /** A request with every value of g turns any employee of the same tenant and code into g. */
  lemma UpdateReachesAnyEmployee(f: EmpFields, g: EmpFields)
    requires SameKey(f, g) && NameOf(g) != "" && g.fullName == NameOf(g)
    requires g.firstName.Some? && g.lastName.Some? && g.email.Some? && g.department.Some?
    requires g.jobTitle.Some? && g.branch.Some? && g.responsibleOfficerId.Some?
    ensures UpdateFields(f, UpdateDto(g.firstName, g.lastName, g.email, g.department, g.jobTitle, g.branch, g.responsibleOfficerId)) == g
  {
  }

  predicate SameKey(f: EmpFields, g: EmpFields) {
    f.tenantId == g.tenantId && f.employeeCode == g.employeeCode
  }

  function ServiceOf(): EmpService {
    Service((n, _) => CreateFields(n), (f, p, _) => UpdateFields(f, p), _ => true, (f, g) => SameKey(f, g))
  }

  /** The derived column follows the names, unless the names are blank. */
  predicate FullNameFollows(f: EmpFields) {
    NameOf(f) == "" || f.fullName == NameOf(f)
  }

  /** In every run, whatever the clients send: no two employees of a tenant, archived ones included, share a code. */
  lemma EmployeeCodesAreUnique(now: Clock, trace: seq<EmpAction>, i: Id, j: Id)
    requires Legal(ServiceOf(), Init(now), trace)
    requires i in Exec(ServiceOf(), Init(now), trace).rows && j in Exec(ServiceOf(), Init(now), trace).rows && i != j
    ensures var rows := Exec(ServiceOf(), Init(now), trace).rows;
      rows[i].fields.tenantId != rows[j].fields.tenantId || rows[i].fields.employeeCode != rows[j].fields.employeeCode
  {
    var svc := ServiceOf();
    assert KeepsKeys(svc);
    KeysStayUnique(svc, Init(now), trace);
    var s := Exec(svc, Init(now), trace);
    assert !svc.clash(s.rows[i].fields, s.rows[j].fields);
  }

  /** After any run of clients that send versions they learned, each employee is what its requests give one after the other. */
  lemma EmployeeRunsAreSerial(now: Clock, trace: seq<EmpAction>, id: Id)
    requires Legal(ServiceOf(), Init(now), trace) && Disciplined(ServiceOf(), Init(now), trace)
    ensures var s := Exec(ServiceOf(), Init(now), trace);
      id in s.rows ==> Events(s, id) != [] && s.rows[id] == Replay(ServiceOf(), Events(s, id))
  {
    var svc := ServiceOf();
    NoLostUpdates(svc, now, trace);
    var s := Exec(svc, Init(now), trace);
    assert RowOk(svc, s, id);
    if id in s.rows {
      ChainReplays(svc, Events(s, id));
    }
  }

  /** In every run, whatever the clients send, the full name follows the names. */
  lemma FullNamesFollow(now: Clock, trace: seq<EmpAction>, id: Id)
    requires Legal(ServiceOf(), Init(now), trace)
    ensures var s := Exec(ServiceOf(), Init(now), trace); id in s.rows ==> FullNameFollows(s.rows[id].fields)
  {
    var ok := (f: EmpFields, _: Clock) => FullNameFollows(f);
    assert Preserves(ServiceOf(), ok);
    assert AllRowsOk(ServiceOf(), Init(now), ok);
    RowsStayOk(ServiceOf(), Init(now), trace, ok);
  }

  /** The unique index on tenant and code refuses a new employee exactly if some row, archived or not, has its code. */
  lemma CodeIsTaken(s: State<EmpFields, NewEmployee, UpdateDto>, n: NewEmployee)
    ensures Duplicate(ServiceOf(), s, CreateFields(n)) <==>
      exists i :: i in s.rows && s.rows[i].fields.tenantId == n.tenantId && s.rows[i].fields.employeeCode == n.dto.employeeCode
  {
    if i :| i in s.rows && s.rows[i].fields.tenantId == n.tenantId && s.rows[i].fields.employeeCode == n.dto.employeeCode {
      assert ServiceOf().clash(s.rows[i].fields, CreateFields(n));
    }
    if i :| i in s.rows && ServiceOf().clash(s.rows[i].fields, CreateFields(n)) {
      assert SameKey(s.rows[i].fields, CreateFields(n));
    }
  }

  class EmployeesService {
    const db: Table<EmpFields, NewEmployee, UpdateDto>

    ghost predicate Valid()
      reads db
    {
      db.Valid() && db.svc == ServiceOf()
    }

    constructor (now: Clock)
      ensures Valid() && fresh(db) && db.Snapshot() == Init(now)
    {
      db := new Table(ServiceOf(), now);
    }

    /** A request alone: no other INSERT of the same code is open. */
    method Create(tx: TxId, id: Id, tenantId: Tenant, dto: CreateDto) returns (r: Reply<EmpRow>)
      requires Valid() && tx !in db.txs && id !in db.rows && id !in db.holders
      requires forall t :: t in db.txs && db.txs[t].Creating? ==>
        !SameKey(db.txs[t].after.fields, CreateFields(NewEmployee(tenantId, dto)))
      modifies db
      ensures Valid() && old(db.trace) <= db.trace && db.now == old(db.now)
      ensures db.txs == old(db.txs) && db.holders == old(db.holders)
      ensures r == Conflict || r == Done(Row(CreateFields(NewEmployee(tenantId, dto)), 1, None))
      ensures r == Conflict <==>
        exists i :: i in old(db.rows) && old(db.rows)[i].fields.tenantId == tenantId && old(db.rows)[i].fields.employeeCode == dto.employeeCode
      ensures r == Conflict ==> db.Snapshot() == old(db.Snapshot())
      ensures r.Done? ==> db.rows == old(db.rows)[id := r.value]
      ensures r.Done? ==> IsCreationOf(NewEmployee(tenantId, dto), r.value.fields)
    {
      CreationStores(NewEmployee(tenantId, dto));
      CodeIsTaken(db.Snapshot(), NewEmployee(tenantId, dto));
      var created := db.Insert(tx, id, NewEmployee(tenantId, dto));
      if created.None? {
        return Conflict;
      }
      db.Commit(tx);
      return Done(created.value);
    }

    method Update(tx: TxId, id: Id, version: int, dto: UpdateDto) returns (r: Reply<EmpRow>)
      requires Valid() && tx !in db.txs && id !in db.holders
      modifies db
      ensures Valid() && old(db.trace) <= db.trace && db.now == old(db.now)
      ensures db.txs == old(db.txs) && db.holders == old(db.holders)
      ensures var found := LiveRow(old(db.Snapshot()), id);
        r == if found.None? then NotFound
             else if found.value.version != version then Conflict
             else Done(Row(UpdateFields(found.value.fields, dto), version + 1, None))
      ensures db.rows == if r.Done? then old(db.rows)[id := r.value] else old(db.rows)
    {
      r := db.UpdateRequest(tx, id, version, dto);
    }

    method Archive(tx: TxId, id: Id) returns (r: Reply<Clock>)
      requires Valid() && tx !in db.txs && id !in db.holders
      modifies db
      ensures Valid() && old(db.trace) <= db.trace && db.now == old(db.now)
      ensures db.txs == old(db.txs) && db.holders == old(db.holders)
      ensures r == if LiveRow(old(db.Snapshot()), id).None? then NotFound else Done(db.now)
      ensures db.rows == if r.Done? then old(db.rows)[id := old(db.rows)[id].(deletedAt := Some(db.now))] else old(db.rows)
    {
      r := db.ArchiveRequest(tx, id);
    }
  }
}
