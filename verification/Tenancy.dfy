/**
  Row-level security on pooled connections: the transaction-local tenant setting, the policy predicate, and
  transactions of many tenants interleaved on reused connections.
*/
module Tenancy {
  import opened Wrappers

  /** The text of a tenant's uuid; never empty. */
  type Tenant = s: string | s != "" witness "t"
  type RowId = nat
  type ConnId = nat

  datatype Row = Row(tenantId: Tenant, data: string)

  // ---- the policy ----

  /** The tenant that a setting names; an empty setting names none, like one that was never made. */
  function Context(setting: Option<string>): Option<string> {
    if setting == Some("") then None else setting
  }

  /** The policy: a tenant is named and the row is its own. It also applies to the rows that a statement writes. */
  predicate Visible(setting: Option<string>, row: Row) {
    Context(setting).Some? && row.tenantId == Context(setting).value
  }

  // ---- connections and statements ----

  /** writes are the uncommitted rows of the open transaction; a missing value is a deletion. */
  datatype Conn = Conn(setting: Option<string>, open: bool, aborted: bool, writes: map<RowId, Option<Row>>)

  datatype System = System(rows: map<RowId, Row>, conns: map<ConnId, Conn>)

  /** A SELECT answers with any function of the rows it sees; an UPDATE may compute any new row. */
  datatype Stmt =
    | Select
    | Update(where: Row -> bool, assign: Row -> Row)
    | Delete(where: Row -> bool)
    | Insert(id: RowId, row: Row)

  datatype Result = Rows(rows: map<RowId, Row>) | Failed

  /** BEGIN with its set_config, a statement, COMMIT or ROLLBACK; a transaction may forget to set its tenant. */
  datatype Action =
    | Open(c: ConnId, who: Option<Tenant>)
    | Run(c: ConnId, stmt: Stmt)
    | Commit(c: ConnId)
    | Rollback(c: ConnId)

  /** Committed rows overlaid with the transaction's own writes. */
  function Overlay(rows: map<RowId, Row>, writes: map<RowId, Option<Row>>): map<RowId, Row> {
    map id | id in rows.Keys + writes.Keys && (id in writes ==> writes[id].Some?) :: if id in writes then writes[id].value else rows[id]
  }

  function Seen(rows: map<RowId, Row>, conn: Conn): map<RowId, Row> {
    var all := Overlay(rows, conn.writes);
    map id | id in all && Visible(conn.setting, all[id]) :: all[id]
  }

  /** The rows an UPDATE or a DELETE reaches, and the id an INSERT takes. */
  function Reached(rows: map<RowId, Row>, conn: Conn, stmt: Stmt): set<RowId> {
    var seen := Seen(rows, conn);
    match stmt
    case Select => {}
    case Update(where, _) => set id | id in seen && where(seen[id])
    case Delete(where) => set id | id in seen && where(seen[id])
    case Insert(id, _) => {id}
  }

  /** The rows that an UPDATE reaches, as it would leave them. */
  function Changed(rows: map<RowId, Row>, conn: Conn, where: Row -> bool, assign: Row -> Row): map<RowId, Row> {
    var seen := Seen(rows, conn);
    map id | id in Reached(rows, conn, Update(where, assign)) :: assign(seen[id])
  }

  /** The rows that a DELETE reaches. */
  function Removed(rows: map<RowId, Row>, conn: Conn, where: Row -> bool): map<RowId, Row> {
    var seen := Seen(rows, conn);
    map id | id in Reached(rows, conn, Delete(where)) :: seen[id]
  }

  function AsStored(rows: map<RowId, Row>): map<RowId, Option<Row>> {
    map id | id in rows :: Some(rows[id])
  }

  function AsDeleted(rows: map<RowId, Row>): map<RowId, Option<Row>> {
    map id | id in rows :: None
  }

  function Answer(rows: map<RowId, Row>, conn: Conn, stmt: Stmt): Result {
    var seen := Seen(rows, conn);
    if conn.aborted then Failed else
      match stmt
      case Select => Rows(seen)
      case Update(where, assign) =>
        var changed := Changed(rows, conn, where, assign);
        if forall id :: id in changed ==> Visible(conn.setting, changed[id]) then Rows(changed) else Failed
      case Delete(where) => Rows(Removed(rows, conn, where))
      case Insert(id, row) => if id in Overlay(rows, conn.writes) || !Visible(conn.setting, row) then Failed else Rows(map[id := row])
  }

  /** A failed statement aborts the transaction; the others record what they wrote. */
  function AfterStmt(rows: map<RowId, Row>, conn: Conn, stmt: Stmt): Conn {
    var answer := Answer(rows, conn, stmt);
    if answer.Failed? then conn.(aborted := true)
    else if stmt.Select? then conn
    else conn.(writes := conn.writes + if stmt.Delete? then AsDeleted(answer.rows) else AsStored(answer.rows))
  }

  predicate IsOpen(s: System, c: ConnId) {
    c in s.conns && s.conns[c].open
  }

  /** A write waits for the open transactions that wrote the same rows. */
  predicate Enabled(s: System, a: Action) {
    match a
    case Open(c, _) => c in s.conns && !s.conns[c].open
    case Run(c, stmt) =>
      IsOpen(s, c) && forall d :: d in s.conns && d != c ==> Reached(s.rows, s.conns[c], stmt) !! s.conns[d].writes.Keys
    case Commit(c) => IsOpen(s, c)
    case Rollback(c) => IsOpen(s, c)
  }

  /** At the end of a transaction a setting made in it reverts to the empty string, not to NULL. */
  function Closed(conn: Conn): Conn {
    Conn(if Context(conn.setting).Some? then Some("") else conn.setting, false, false, map[])
  }

  function Next(s: System, a: Action): System
    requires Enabled(s, a)
  {
    match a
    case Open(c, who) =>
      s.(conns := s.conns[c := Conn(if who.Some? then Some(who.value) else s.conns[c].setting, true, false, map[])])
    case Run(c, stmt) => s.(conns := s.conns[c := AfterStmt(s.rows, s.conns[c], stmt)])
    case Commit(c) =>
      System(if s.conns[c].aborted then s.rows else Overlay(s.rows, s.conns[c].writes), s.conns[c := Closed(s.conns[c])])
    case Rollback(c) => s.(conns := s.conns[c := Closed(s.conns[c])])
  }

  ghost predicate Legal(s: System, trace: seq<Action>)
    decreases |trace|
  {
    trace != [] ==> Enabled(s, trace[0]) && Legal(Next(s, trace[0]), trace[1..])
  }

  ghost function Exec(s: System, trace: seq<Action>): System
    requires Legal(s, trace)
    decreases |trace|
  {
    if trace == [] then s else Exec(Next(s, trace[0]), trace[1..])
  }

  // ---- what a tenant sees and does in a run ----

  /** The open transaction of connection c runs for tenant t. */
  predicate For(s: System, c: ConnId, t: Tenant) {
    IsOpen(s, c) && s.conns[c].setting == Some(t)
  }

  predicate Mine(s: System, a: Action, t: Tenant) {
    if a.Open? then a.who == Some(t) else For(s, a.c, t)
  }

  /** The answers to the statements of tenant t, in order. */
  ghost function Answers(s: System, trace: seq<Action>, t: Tenant): seq<Result>
    requires Legal(s, trace)
    decreases |trace|
  {
    if trace == [] then [] else
      (if trace[0].Run? && Mine(s, trace[0], t) then [Answer(s.rows, s.conns[trace[0].c], trace[0].stmt)] else [])
      + Answers(Next(s, trace[0]), trace[1..], t)
  }

  /** The actions of tenant t alone. */
  ghost function Purge(s: System, trace: seq<Action>, t: Tenant): seq<Action>
    requires Legal(s, trace)
    decreases |trace|
  {
    if trace == [] then [] else
      (if Mine(s, trace[0], t) then [trace[0]] else []) + Purge(Next(s, trace[0]), trace[1..], t)
  }

  /** Fresh ids never collide across tenants: owner says which tenant would draw an id. */
  ghost predicate FreshIds(owner: RowId -> Tenant, s: System, trace: seq<Action>)
    requires Legal(s, trace)
    decreases |trace|
  {
    trace != [] ==>
      && (trace[0].Run? && trace[0].stmt.Insert? ==> trace[0].stmt.row.tenantId == owner(trace[0].stmt.id))
      && FreshIds(owner, Next(s, trace[0]), trace[1..])
  }

  // ---- invariant ----

  ghost predicate ConnOk(owner: RowId -> Tenant, conn: Conn) {
    && (!conn.open ==> Context(conn.setting).None? && conn.writes == map[])
    && (forall id :: id in conn.writes ==>
          && conn.setting == Some(owner(id))
          && (conn.writes[id].Some? ==> conn.writes[id].value.tenantId == owner(id)))
  }

  ghost predicate Inv(owner: RowId -> Tenant, s: System) {
    && (forall id :: id in s.rows ==> s.rows[id].tenantId == owner(id))
    && (forall c :: c in s.conns ==> ConnOk(owner, s.conns[c]))
  }

  /** A transaction sees only rows of its tenant, and none without a tenant. */
  lemma SeenRows(owner: RowId -> Tenant, s: System, c: ConnId)
    requires Inv(owner, s) && IsOpen(s, c)
    ensures Context(s.conns[c].setting).None? ==> Seen(s.rows, s.conns[c]) == map[]
    ensures forall id :: id in Seen(s.rows, s.conns[c]) ==>
      s.conns[c].setting == Some(owner(id)) && Seen(s.rows, s.conns[c])[id].tenantId == owner(id)
  {
    assert ConnOk(owner, s.conns[c]);
  }

  lemma RunKeepsConnOk(owner: RowId -> Tenant, s: System, c: ConnId, stmt: Stmt)
    requires Inv(owner, s) && IsOpen(s, c) && (stmt.Insert? ==> stmt.row.tenantId == owner(stmt.id))
    ensures ConnOk(owner, AfterStmt(s.rows, s.conns[c], stmt))
  {
    SeenRows(owner, s, c);
    assert ConnOk(owner, s.conns[c]);
  }

  lemma StepKeepsInv(owner: RowId -> Tenant, s: System, a: Action)
    requires Inv(owner, s) && Enabled(s, a)
    requires a.Run? && a.stmt.Insert? ==> a.stmt.row.tenantId == owner(a.stmt.id)
    ensures Inv(owner, Next(s, a))
  {
    assert ConnOk(owner, s.conns[a.c]);
    if a.Run? {
      RunKeepsConnOk(owner, s, a.c, a.stmt);
    }
  }

  lemma {:induction false} RunKeepsInv(owner: RowId -> Tenant, s: System, trace: seq<Action>)
    requires Inv(owner, s) && Legal(s, trace) && FreshIds(owner, s, trace)
    ensures Inv(owner, Exec(s, trace))
    decreases |trace|
  {
    if trace != [] {
      StepKeepsInv(owner, s, trace[0]);
      RunKeepsInv(owner, Next(s, trace[0]), trace[1..]);
    }
  }

  /**
    In every run: an idle connection's setting is unset or empty, and a transaction sees, and has written, only
    rows of the tenant it runs for -- no row at all if it runs for none.
  */
  lemma SettingNeverLeaks(owner: RowId -> Tenant, s: System, trace: seq<Action>, c: ConnId)
    requires Inv(owner, s) && Legal(s, trace) && FreshIds(owner, s, trace) && c in Exec(s, trace).conns
    ensures var s' := Exec(s, trace); var conn := s'.conns[c];
      && (!conn.open ==> conn.setting == None || conn.setting == Some(""))
      && (conn.open && Context(conn.setting).None? ==> Seen(s'.rows, conn) == map[] && conn.writes == map[])
      && (conn.open ==> forall id :: id in Seen(s'.rows, conn) ==> conn.setting == Some(Seen(s'.rows, conn)[id].tenantId))
      && (forall id :: id in conn.writes ==> conn.setting == Some(owner(id)))
  {
    RunKeepsInv(owner, s, trace);
    var s' := Exec(s, trace);
    assert ConnOk(owner, s'.conns[c]);
    if s'.conns[c].open {
      SeenRows(owner, s', c);
    }
  }

  // ---- row locks ----

  /** No two open transactions have written the same row. */
  ghost predicate Disjoint(s: System) {
    forall c, d {:trigger s.conns[c], s.conns[d]} :: c in s.conns && d in s.conns && c != d ==> s.conns[c].writes.Keys !! s.conns[d].writes.Keys
  }

  /** A statement writes only rows that it reaches. */
  lemma WritesReached(rows: map<RowId, Row>, conn: Conn, stmt: Stmt)
    ensures AfterStmt(rows, conn, stmt).writes.Keys <= conn.writes.Keys + Reached(rows, conn, stmt)
  {
  }

  /** Because writes wait for each other, a row has one uncommitted writer at most, in every run. */
  lemma {:induction false} OneWriterPerRow(s: System, trace: seq<Action>)
    requires Disjoint(s) && Legal(s, trace)
    ensures Disjoint(Exec(s, trace))
    decreases |trace|
  {
    if trace != [] {
      if trace[0].Run? {
        WritesReached(s.rows, s.conns[trace[0].c], trace[0].stmt);
      }
      OneWriterPerRow(Next(s, trace[0]), trace[1..]);
    }
  }

  // ---- non-interference ----

  /** The two systems look the same to tenant t: same committed rows, same open transactions. */
  ghost predicate Agree(owner: RowId -> Tenant, t: Tenant, s1: System, s2: System) {
    && s1.conns.Keys == s2.conns.Keys
    && (forall c :: For(s1, c, t) || For(s2, c, t) ==> c in s1.conns && s1.conns[c] == s2.conns[c])
    && (forall id :: owner(id) == t ==> (id in s1.rows <==> id in s2.rows) && (id in s1.rows ==> s1.rows[id] == s2.rows[id]))
  }

  lemma SameView(owner: RowId -> Tenant, t: Tenant, s1: System, s2: System, c: ConnId)
    requires Inv(owner, s1) && Inv(owner, s2) && Agree(owner, t, s1, s2) && For(s1, c, t)
    ensures s1.conns[c] == s2.conns[c] && Seen(s1.rows, s1.conns[c]) == Seen(s2.rows, s2.conns[c])
    ensures forall id :: owner(id) == t ==>
      (id in Overlay(s1.rows, s1.conns[c].writes) <==> id in Overlay(s2.rows, s2.conns[c].writes))
  {
    var conn := s1.conns[c];
    assert conn == s2.conns[c] && ConnOk(owner, conn);
    var seen1, seen2 := Seen(s1.rows, conn), Seen(s2.rows, conn);
    forall id ensures id in seen1 <==> id in seen2
      ensures id in seen1 ==> seen1[id] == seen2[id]
    {
      if owner(id) != t {
        assert id !in conn.writes;
      }
    }
  }

  /** A statement looks at the visible rows alone, but for the id of an INSERT of a row of the tenant. */
  lemma AnswerDependsOnView(rows1: map<RowId, Row>, rows2: map<RowId, Row>, conn: Conn, stmt: Stmt)
    requires Seen(rows1, conn) == Seen(rows2, conn)
    requires stmt.Insert? && Visible(conn.setting, stmt.row) ==>
      (stmt.id in Overlay(rows1, conn.writes) <==> stmt.id in Overlay(rows2, conn.writes))
    ensures Reached(rows1, conn, stmt) == Reached(rows2, conn, stmt)
    ensures Answer(rows1, conn, stmt) == Answer(rows2, conn, stmt)
    ensures AfterStmt(rows1, conn, stmt) == AfterStmt(rows2, conn, stmt)
  {
  }

  /** The same statement of t gets the same answer, writes the same and waits the same. */
  lemma SameAnswer(owner: RowId -> Tenant, t: Tenant, s1: System, s2: System, c: ConnId, stmt: Stmt)
    requires Inv(owner, s1) && Inv(owner, s2) && Agree(owner, t, s1, s2) && For(s1, c, t)
    requires stmt.Insert? ==> stmt.row.tenantId == owner(stmt.id)
    ensures Reached(s1.rows, s1.conns[c], stmt) == Reached(s2.rows, s2.conns[c], stmt)
    ensures Answer(s1.rows, s1.conns[c], stmt) == Answer(s2.rows, s2.conns[c], stmt)
    ensures AfterStmt(s1.rows, s1.conns[c], stmt) == AfterStmt(s2.rows, s2.conns[c], stmt)
  {
    SameView(owner, t, s1, s2, c);
    AnswerDependsOnView(s1.rows, s2.rows, s1.conns[c], stmt);
  }

  ghost predicate InsertsFresh(owner: RowId -> Tenant, a: Action) {
    a.Run? && a.stmt.Insert? ==> a.stmt.row.tenantId == owner(a.stmt.id)
  }

  /** Every open transaction runs for t. */
  ghost predicate OnlyFor(s: System, t: Tenant) {
    forall c :: IsOpen(s, c) ==> For(s, c, t)
  }

  /** A step of another tenant, or of a transaction without one, changes nothing that t can see. */
  lemma ForeignStepIsInvisible(owner: RowId -> Tenant, t: Tenant, s1: System, s2: System, a: Action)
    requires Inv(owner, s1) && Agree(owner, t, s1, s2) && Enabled(s1, a) && InsertsFresh(owner, a) && !Mine(s1, a, t)
    ensures Agree(owner, t, Next(s1, a), s2)
  {
    var s1' := Next(s1, a);
    assert ConnOk(owner, s1.conns[a.c]);
    assert !For(s1', a.c, t) && !For(s1, a.c, t);
    forall c | For(s1', c, t) || For(s2, c, t) ensures c in s1'.conns && s1'.conns[c] == s2.conns[c] {
      assert c != a.c && s1'.conns[c] == s1.conns[c];
    }
  }

  lemma OwnStepIsEnabled(owner: RowId -> Tenant, t: Tenant, s1: System, s2: System, a: Action)
    requires Inv(owner, s1) && Inv(owner, s2) && Agree(owner, t, s1, s2) && OnlyFor(s2, t)
    requires Enabled(s1, a) && InsertsFresh(owner, a) && Mine(s1, a, t)
    ensures Enabled(s2, a) && Mine(s2, a, t)
  {
    if a.Run? {
      SameAnswer(owner, t, s1, s2, a.c, a.stmt);
      forall d | d in s2.conns && d != a.c ensures Reached(s2.rows, s2.conns[a.c], a.stmt) !! s2.conns[d].writes.Keys {
        assert ConnOk(owner, s2.conns[d]);
        if s2.conns[d].open {
          assert For(s2, d, t) && s1.conns[d] == s2.conns[d];
        }
      }
    }
  }

  /** A step of t does the same in both systems. */
  lemma OwnStepAgrees(owner: RowId -> Tenant, t: Tenant, s1: System, s2: System, a: Action)
    requires Inv(owner, s1) && Inv(owner, s2) && Agree(owner, t, s1, s2) && OnlyFor(s2, t)
    requires Enabled(s1, a) && Enabled(s2, a) && InsertsFresh(owner, a) && Mine(s1, a, t)
    ensures Agree(owner, t, Next(s1, a), Next(s2, a)) && OnlyFor(Next(s2, a), t)
  {
    if a.Run? {
      SameAnswer(owner, t, s1, s2, a.c, a.stmt);
    }
    var s1', s2' := Next(s1, a), Next(s2, a);
    assert !a.Open? ==> s1.conns[a.c] == s2.conns[a.c];
    forall c | For(s1', c, t) || For(s2', c, t) ensures c in s1'.conns && s1'.conns[c] == s2'.conns[c] {
      if c != a.c {
        assert s1'.conns[c] == s1.conns[c] && s2'.conns[c] == s2.conns[c];
      }
    }
    forall c | IsOpen(s2', c) ensures For(s2', c, t) {
      assert c != a.c ==> IsOpen(s2, c);
      assert a.Run? ==> For(s2, a.c, t);
    }
  }

  /**
    Non-interference: take any run, and a database that agrees with its start on the rows of tenant t and has no
    transaction of anyone else. Running there only t's own transactions is possible, gives t the same answers, and
    ends with the same rows of t. So neither the rows nor the actions of other tenants, nor the connections they
    used before, make a difference to t.
  */
  lemma {:induction false} NonInterference(owner: RowId -> Tenant, t: Tenant, s1: System, s2: System, trace: seq<Action>)
    requires Inv(owner, s1) && Inv(owner, s2) && Agree(owner, t, s1, s2) && OnlyFor(s2, t)
    requires Legal(s1, trace) && FreshIds(owner, s1, trace)
    ensures Legal(s2, Purge(s1, trace, t))
    ensures Agree(owner, t, Exec(s1, trace), Exec(s2, Purge(s1, trace, t)))
    ensures Answers(s1, trace, t) == Answers(s2, Purge(s1, trace, t), t)
    decreases |trace|
  {
    if trace != [] {
      var a := trace[0];
      var s1' := Next(s1, a);
      StepKeepsInv(owner, s1, a);
      if Mine(s1, a, t) {
        OwnStepIsEnabled(owner, t, s1, s2, a);
        OwnStepAgrees(owner, t, s1, s2, a);
        StepKeepsInv(owner, s2, a);
        if a.Run? {
          SameAnswer(owner, t, s1, s2, a.c, a.stmt);
        }
        NonInterference(owner, t, s1', Next(s2, a), trace[1..]);
        var rest := Purge(s1', trace[1..], t);
        assert Purge(s1, trace, t) == [a] + rest && ([a] + rest)[1..] == rest;
      } else {
        ForeignStepIsInvisible(owner, t, s1, s2, a);
        NonInterference(owner, t, s1', s2, trace[1..]);
        assert Purge(s1, trace, t) == Purge(s1', trace[1..], t);
      }
    }
  }

  // ---- what a statement sees and a commit stores, row by row ----

  /** The row that a transaction finds under an id: its own write, or else the committed row. */
  ghost predicate Finds(rows: map<RowId, Row>, conn: Conn, id: RowId, row: Row) {
    if id in conn.writes then conn.writes[id] == Some(row) else id in rows && rows[id] == row
  }

  /** In any interleaving a SELECT answers with all the rows of the tenant, its own earlier writes included, and no others. */
  lemma SelectIsExact(rows: map<RowId, Row>, conn: Conn, t: Tenant, id: RowId, row: Row)
    requires conn.setting == Some(t) && !conn.aborted
    ensures Answer(rows, conn, Select).Rows?
    ensures var answer := Answer(rows, conn, Select).rows;
      (id in answer && answer[id] == row) <==> Finds(rows, conn, id, row) && row.tenantId == t
  {
  }

  /** A COMMIT stores every row that the transaction wrote, removes every one that it deleted, and leaves the others. */
  lemma CommitStoresWrites(s: System, c: ConnId, id: RowId, row: Row)
    requires IsOpen(s, c) && !s.conns[c].aborted
    ensures var rows := Next(s, Commit(c)).rows;
      (id in rows && rows[id] == row) <==> Finds(s.rows, s.conns[c], id, row)
  {
  }

  // ---- one transaction alone, on a plain table ----

  /** The rows of a tenant that a condition picks. */
  predicate Picked(table: map<RowId, Row>, t: Tenant, where: Row -> bool, id: RowId) {
    id in table && table[id].tenantId == t && where(table[id])
  }

  /** What a statement of tenant t answers on a table; it fails if it would write a row of another tenant or a taken id. */
  function PlainAnswer(table: map<RowId, Row>, t: Tenant, stmt: Stmt): Result {
    match stmt
    case Select => Rows(map id | id in table && table[id].tenantId == t :: table[id])
    case Update(where, assign) =>
      var changed := map id | id in table && Picked(table, t, where, id) :: assign(table[id]);
      if forall id :: id in changed ==> changed[id].tenantId == t then Rows(changed) else Failed
    case Delete(where) => Rows(map id | id in table && Picked(table, t, where, id) :: table[id])
    case Insert(id, row) => if id in table || row.tenantId != t then Failed else Rows(map[id := row])
  }

  /** The table after a statement of tenant t that did not fail. */
  function PlainEffect(table: map<RowId, Row>, t: Tenant, stmt: Stmt): map<RowId, Row> {
    match stmt
    case Select => table
    case Update(where, assign) => map id | id in table :: if Picked(table, t, where, id) then assign(table[id]) else table[id]
    case Delete(where) => map id | id in table && !Picked(table, t, where, id) :: table[id]
    case Insert(id, row) => table[id := row]
  }

  /** The statements of tenant t one after the other. */
  function PlainRun(table: map<RowId, Row>, t: Tenant, work: seq<Stmt>): map<RowId, Row> {
    if work == [] then table else
      PlainEffect(PlainRun(table, t, work[..|work| - 1]), t, work[|work| - 1])
  }

  lemma PlainRunStep(table: map<RowId, Row>, t: Tenant, work: seq<Stmt>, i: nat)
    requires i < |work|
    ensures PlainRun(table, t, work[..i + 1]) == PlainEffect(PlainRun(table, t, work[..i]), t, work[i])
  {
    assert work[..i + 1][..i] == work[..i];
  }

  /** On its overlay, a statement of an open transaction does what it does on a plain table. */
  lemma StatementIsPlain(rows: map<RowId, Row>, conn: Conn, t: Tenant, stmt: Stmt)
    requires conn.setting == Some(t) && !conn.aborted
    ensures var table := Overlay(rows, conn.writes);
      && Answer(rows, conn, stmt) == PlainAnswer(table, t, stmt)
      && (!Answer(rows, conn, stmt).Failed? ==> Overlay(rows, AfterStmt(rows, conn, stmt).writes) == PlainEffect(table, t, stmt))
  {
    match stmt
    case Select => SelectIsPlain(rows, conn, t);
    case Update(where, assign) => UpdateIsPlain(rows, conn, t, where, assign);
    case Delete(where) => DeleteIsPlain(rows, conn, t, where);
    case Insert(id, row) => InsertIsPlain(rows, conn, t, id, row);
  }

  lemma SelectIsPlain(rows: map<RowId, Row>, conn: Conn, t: Tenant)
    requires conn.setting == Some(t) && !conn.aborted
    ensures Answer(rows, conn, Select) == PlainAnswer(Overlay(rows, conn.writes), t, Select)
    ensures Overlay(rows, AfterStmt(rows, conn, Select).writes) == Overlay(rows, conn.writes)
  {
    assert Seen(rows, conn) == PlainAnswer(Overlay(rows, conn.writes), t, Select).rows;
  }

  lemma SeenIsTheTenants(rows: map<RowId, Row>, conn: Conn, t: Tenant)
    requires conn.setting == Some(t)
    ensures var table := Overlay(rows, conn.writes);
      forall id :: id in Seen(rows, conn) <==> id in table && table[id].tenantId == t
    ensures forall id :: id in Seen(rows, conn) ==> Seen(rows, conn)[id] == Overlay(rows, conn.writes)[id]
  {
  }

  lemma UpdateIsPlain(rows: map<RowId, Row>, conn: Conn, t: Tenant, where: Row -> bool, assign: Row -> Row)
    requires conn.setting == Some(t) && !conn.aborted
    ensures var stmt := Update(where, assign); var table := Overlay(rows, conn.writes);
      && Answer(rows, conn, stmt) == PlainAnswer(table, t, stmt)
      && (!Answer(rows, conn, stmt).Failed? ==> Overlay(rows, AfterStmt(rows, conn, stmt).writes) == PlainEffect(table, t, stmt))
  {
    var stmt, table := Update(where, assign), Overlay(rows, conn.writes);
    var changed := Changed(rows, conn, where, assign);
    ChangedIsPicked(rows, conn, t, where, assign);
    if Answer(rows, conn, stmt).Rows? {
      WritesOverlay(rows, conn.writes, changed);
      EffectOverlays(table, t, where, assign, changed);
    }
  }

  lemma ChangedIsPicked(rows: map<RowId, Row>, conn: Conn, t: Tenant, where: Row -> bool, assign: Row -> Row)
    requires conn.setting == Some(t)
    ensures var table := Overlay(rows, conn.writes);
      Changed(rows, conn, where, assign) == map id | id in table && Picked(table, t, where, id) :: assign(table[id])
  {
    SeenIsTheTenants(rows, conn, t);
  }

  lemma EffectOverlays(table: map<RowId, Row>, t: Tenant, where: Row -> bool, assign: Row -> Row, changed: map<RowId, Row>)
    requires changed == map id | id in table && Picked(table, t, where, id) :: assign(table[id])
    ensures PlainEffect(table, t, Update(where, assign)) == table + changed
  {
  }

  /** Newer writes lie over the older ones. */
  lemma WritesOverlay(rows: map<RowId, Row>, writes: map<RowId, Option<Row>>, newer: map<RowId, Row>)
    ensures Overlay(rows, writes + AsStored(newer)) == Overlay(rows, writes) + newer
  {
  }

  lemma DeletesOverlay(rows: map<RowId, Row>, writes: map<RowId, Option<Row>>, gone: map<RowId, Row>)
    ensures Overlay(rows, writes + AsDeleted(gone)) == Overlay(rows, writes) - gone.Keys
  {
  }

  lemma DeleteIsPlain(rows: map<RowId, Row>, conn: Conn, t: Tenant, where: Row -> bool)
    requires conn.setting == Some(t) && !conn.aborted
    ensures var stmt := Delete(where); var table := Overlay(rows, conn.writes);
      && Answer(rows, conn, stmt) == PlainAnswer(table, t, stmt)
      && Overlay(rows, AfterStmt(rows, conn, stmt).writes) == PlainEffect(table, t, stmt)
  {
    var table, gone := Overlay(rows, conn.writes), Removed(rows, conn, where);
    RemovedIsPicked(rows, conn, t, where);
    DeletesOverlay(rows, conn.writes, gone);
    assert PlainEffect(table, t, Delete(where)) == table - gone.Keys;
  }

  lemma RemovedIsPicked(rows: map<RowId, Row>, conn: Conn, t: Tenant, where: Row -> bool)
    requires conn.setting == Some(t)
    ensures var table := Overlay(rows, conn.writes);
      Removed(rows, conn, where) == map id | id in table && Picked(table, t, where, id) :: table[id]
  {
    SeenIsTheTenants(rows, conn, t);
  }

  lemma InsertIsPlain(rows: map<RowId, Row>, conn: Conn, t: Tenant, id: RowId, row: Row)
    requires conn.setting == Some(t) && !conn.aborted
    ensures var stmt := Insert(id, row); var table := Overlay(rows, conn.writes);
      && Answer(rows, conn, stmt) == PlainAnswer(table, t, stmt)
      && (!Answer(rows, conn, stmt).Failed? ==> Overlay(rows, AfterStmt(rows, conn, stmt).writes) == PlainEffect(table, t, stmt))
  {
    var newer := map[id := row];
    if !Answer(rows, conn, Insert(id, row)).Failed? {
      WritesOverlay(rows, conn.writes, newer);
      assert Overlay(rows, conn.writes) + newer == Overlay(rows, conn.writes)[id := row];
    }
  }

  /** The statements that have answered so far, none of which failed. */
  ghost predicate Worked(rows: map<RowId, Row>, conn: Conn, t: Tenant, work: seq<Stmt>, answers: seq<Result>) {
    && |answers| <= |work| && conn.open && conn.setting == Some(t) && !conn.aborted
    && Overlay(rows, conn.writes) == PlainRun(rows, t, work[..|answers|])
    && (forall k :: 0 <= k < |answers| ==> !answers[k].Failed? && IsPlain(rows, t, work, k, answers[k]))
  }

  /** What statement k answers is what it answers after the statements before it, one after the other. */
  ghost predicate IsPlain(rows: map<RowId, Row>, t: Tenant, work: seq<Stmt>, k: nat, answer: Result)
    requires k < |work|
  {
    answer == PlainAnswer(PlainRun(rows, t, work[..k]), t, work[k])
  }

  lemma WorkedStep(rows: map<RowId, Row>, conn: Conn, t: Tenant, work: seq<Stmt>, answers: seq<Result>)
    requires Worked(rows, conn, t, work, answers) && |answers| < |work|
    ensures var stmt := work[|answers|]; var answer, conn' := Answer(rows, conn, stmt), AfterStmt(rows, conn, stmt);
      && IsPlain(rows, t, work, |answers|, answer) && conn'.open && conn'.setting == conn.setting
      && (!answer.Failed? ==> Worked(rows, conn', t, work, answers + [answer]))
  {
    StatementIsPlain(rows, conn, t, work[|answers|]);
    PlainRunStep(rows, t, work, |answers|);
  }

  lemma NothingWritten(rows: map<RowId, Row>)
    ensures Overlay(rows, map[]) == rows
  {
  }

  // ---- withTenant ----

  lemma {:induction false} ExecAppend(s: System, trace: seq<Action>, a: Action, t: Tenant)
    requires Legal(s, trace) && Enabled(Exec(s, trace), a)
    ensures Legal(s, trace + [a]) && Exec(s, trace + [a]) == Next(Exec(s, trace), a)
    ensures var s' := Exec(s, trace);
      Answers(s, trace + [a], t)
        == Answers(s, trace, t) + (if a.Run? && Mine(s', a, t) then [Answer(s'.rows, s'.conns[a.c], a.stmt)] else [])
    decreases |trace|
  {
    if trace == [] {
      assert [a][1..] == [];
    } else {
      ExecAppend(Next(s, trace[0]), trace[1..], a, t);
      assert (trace + [a])[1..] == trace[1..] + [a];
    }
  }

  /** BEGIN with set_config, a number of statements, and the end: the run that one call of withTenant makes. */
  function CallTrace(c: ConnId, tenant: Tenant, work: seq<Stmt>, commit: bool): seq<Action> {
    [Open(c, Some(tenant))] + Runs(c, work) + [if commit then Commit(c) else Rollback(c)]
  }

  function Runs(c: ConnId, work: seq<Stmt>): seq<Action> {
    seq(|work|, i requires 0 <= i < |work| => Run(c, work[i]))
  }

  /** The trace is a run from s0, and it ends in s. */
  ghost predicate IsRun(s0: System, trace: seq<Action>, s: System) {
    forall from {:trigger Legal(from, trace)} :: from == s0 ==> Legal(from, trace) && s == Exec(from, trace)
  }

  lemma RunAppend(s0: System, trace: seq<Action>, s: System, a: Action)
    requires IsRun(s0, trace, s) && Enabled(s, a)
    ensures IsRun(s0, trace + [a], Next(s, a))
  {
    assert Legal(s0, trace);
    ExecAppend(s0, trace, a, "t");
  }

  /** The pool and the database behind it; trace records the statements run so far. */
  class Pool {
    var rows: map<RowId, Row>
    var conns: map<ConnId, Conn>
    ghost const origin: System
    ghost var trace: seq<Action>

    ghost function Snapshot(): System
      reads this
    {
      System(rows, conns)
    }

    ghost predicate Valid()
      reads this
    {
      IsRun(origin, trace, Snapshot())
    }

    /** Fresh connections have never had the setting. */
    constructor (rows: map<RowId, Row>, ids: set<ConnId>)
      ensures Valid() && this.rows == rows && trace == []
      ensures conns == map id | id in ids :: Conn(None, false, false, map[])
    {
      this.rows, conns := rows, map id | id in ids :: Conn(None, false, false, map[]);
      origin, trace := System(rows, map id | id in ids :: Conn(None, false, false, map[])), [];
    }

    ghost method Record(a: Action, s: System)
      requires IsRun(origin, trace, s) && Enabled(s, a) && Snapshot() == Next(s, a)
      modifies this`trace
      ensures Valid() && trace == old(trace) + [a]
    {
      RunAppend(origin, trace, s, a);
      trace := trace + [a];
    }

    method Begin(c: ConnId, tenant: Tenant)
      requires Valid() && Enabled(Snapshot(), Open(c, Some(tenant)))
      modifies this
      ensures Valid() && trace == old(trace) + [Open(c, Some(tenant))]
      ensures rows == old(rows) && conns == old(conns)[c := Conn(Some(tenant), true, false, map[])]
    {
      ghost var s := Snapshot();
      conns := conns[c := Conn(Some(tenant), true, false, map[])];
      Record(Open(c, Some(tenant)), s);
    }

    method Query(c: ConnId, stmt: Stmt) returns (answer: Result)
      requires Valid() && Enabled(Snapshot(), Run(c, stmt))
      modifies this
      ensures Valid() && trace == old(trace) + [Run(c, stmt)]
      ensures answer == Answer(old(rows), old(conns)[c], stmt)
      ensures rows == old(rows) && conns == old(conns)[c := AfterStmt(rows, old(conns)[c], stmt)]
    {
      ghost var s := Snapshot();
      answer := Answer(rows, conns[c], stmt);
      conns := conns[c := AfterStmt(rows, conns[c], stmt)];
      Record(Run(c, stmt), s);
    }

    method Finish(c: ConnId, commit: bool)
      requires Valid() && IsOpen(Snapshot(), c) && (commit ==> !conns[c].aborted)
      modifies this
      ensures Valid() && trace == old(trace) + [if commit then Commit(c) else Rollback(c)]
      ensures rows == if commit then Overlay(old(rows), old(conns)[c].writes) else old(rows)
      ensures conns == old(conns)[c := Closed(old(conns)[c])]
    {
      ghost var s := Snapshot();
      if commit {
        rows := Overlay(rows, conns[c].writes);
      }
      conns := conns[c := Closed(conns[c])];
      Record(if commit then Commit(c) else Rollback(c), s);
    }

    /**
      One transaction for a tenant on an idle connection, with no other one open: the statements up to the first
      that fails, then COMMIT or ROLLBACK, and the release of the connection with an empty setting.
    */
    method WithTenant(c: ConnId, tenant: Tenant, work: seq<Stmt>) returns (answers: seq<Result>, committed: bool)
      requires Valid() && c in conns && forall d :: d in conns ==> !conns[d].open && conns[d].writes == map[]
      modifies this
      ensures |answers| <= |work| && (committed ==> |answers| == |work|)
      ensures Valid() && trace == old(trace) + CallTrace(c, tenant, work[..|answers|], committed)
      ensures forall i :: 0 <= i < |answers| ==> (answers[i].Failed? <==> !committed && i == |answers| - 1)
      ensures !committed ==> answers != [] && rows == old(rows)
      ensures committed ==> rows == PlainRun(old(rows), tenant, work)
      ensures forall i :: 0 <= i < |answers| ==> IsPlain(old(rows), tenant, work, i, answers[i])
      ensures conns == old(conns)[c := Conn(Some(""), false, false, map[])]
    {
      Begin(c, tenant);
      answers, committed := Work(c, tenant, work);
      Finish(c, committed);
    }

    /** The caller's statements, up to the first that fails. */
    method Work(c: ConnId, tenant: Tenant, work: seq<Stmt>) returns (answers: seq<Result>, ok: bool)
      requires Valid() && c in conns && conns[c] == Conn(Some(tenant), true, false, map[])
      requires forall d :: d in conns && d != c ==> conns[d].writes == map[]
      modifies this
      ensures |answers| <= |work| && (ok ==> |answers| == |work|) && (!ok ==> answers != [])
      ensures Valid() && trace == old(trace) + Runs(c, work[..|answers|])
      ensures forall i :: 0 <= i < |answers| ==> (answers[i].Failed? <==> !ok && i == |answers| - 1)
      ensures rows == old(rows) && c in conns && conns == old(conns)[c := conns[c]]
      ensures conns[c].open && conns[c].setting == Some(tenant) && (ok ==> !conns[c].aborted)
      ensures ok ==> Overlay(rows, conns[c].writes) == PlainRun(rows, tenant, work)
      ensures forall i :: 0 <= i < |answers| ==> IsPlain(rows, tenant, work, i, answers[i])
    {
      answers, ok := [], true;
      NothingWritten(rows);
      for i := 0 to |work|
        invariant Valid() && trace == old(trace) + Runs(c, work[..i])
        invariant ok && |answers| == i && rows == old(rows) && c in conns && conns == old(conns)[c := conns[c]]
        invariant Worked(rows, conns[c], tenant, work, answers)
      {
        WorkedStep(rows, conns[c], tenant, work, answers);
        var answer := Query(c, work[i]);
        assert Runs(c, work[..i + 1]) == Runs(c, work[..i]) + [Run(c, work[i])];
        answers := answers + [answer];
        if answer.Failed? {
          ok := false;
          break;
        }
      }
      assert work[..|work|] == work;
    }
  }
}
