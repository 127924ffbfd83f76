/**
  Optimistic locking as the documents and employees services share it, under READ COMMITTED.

  A transaction reads a row, computes new values from what it read, and later runs
  UPDATE ... WHERE id = ? AND version = ? AND deleted_at IS NULL, which writes `before.version + 1`.
  The UPDATE waits for the holder of the row and then tests its WHERE on the committed row. Each action
  below is one such statement, so a run is any interleaving of any number of transactions.
*/
module RowLocking {
  import opened Wrappers
  import opened Calendar

  type Id = nat
  type TxId = nat

  datatype Row<F> = Row(fields: F, version: int, deletedAt: Option<Clock>) {
    predicate Live() { deletedAt.None? }
  }

  /**
    What a service computes: the fields of a new row, the fields of an updated row, the requests it admits, and
    the rows that a unique index keeps apart.
  */
  datatype Service<!F, !N, !P> = Service(
    make: (N, Clock) -> F, apply: (F, P, Clock) -> F, accepts: P -> bool, clash: (F, F) -> bool)

  /** One committed write of a row, as its audit entry records it. */
  datatype Event<F, N, P> =
    | Created(input: N, at: Clock, after: Row<F>)
    | Updated(patch: P, at: Clock, before: Row<F>, after: Row<F>)
    | Archived(at: Clock, before: Row<F>, after: Row<F>)

  datatype Tx<F, N, P> =
    | Creating(id: Id, input: N, at: Clock, after: Row<F>)
    | Updating(id: Id, version: int, patch: P)
    | UpdateRead(id: Id, version: int, patch: P, before: Row<F>)
    | UpdateReady(id: Id, version: int, patch: P, before: Row<F>, at: Clock, next: F)
    | UpdateWritten(id: Id, patch: P, before: Row<F>, at: Clock, after: Row<F>)
    | Archiving(id: Id, at: Clock)
    | ArchiveRead(id: Id, at: Clock, before: Row<F>)
    | ArchiveWritten(id: Id, at: Clock, before: Row<F>, after: Row<F>)
  {
    /** An uncommitted write holds its row. */
    predicate Holds() { Creating? || UpdateWritten? || ArchiveWritten? }
  }

  /** Committed rows, row holders, open transactions, and the committed audit entries of each row in commit order. */
  datatype State<F, N, P> = State(
    now: Clock, rows: map<Id, Row<F>>, holders: map<Id, TxId>, txs: map<TxId, Tx<F, N, P>>,
    audit: map<Id, seq<Event<F, N, P>>>)

  datatype Action<N, P> =
    | Tick(to: Clock)
    | Insert(tx: TxId, id: Id, input: N)
    | BeginUpdate(tx: TxId, id: Id, version: int, patch: P)
    | BeginArchive(tx: TxId, id: Id)
    | Read(tx: TxId)
    | Compute(tx: TxId)
    | Write(tx: TxId)
    | Commit(tx: TxId)
    | Rollback(tx: TxId)

  function Init<F, N, P>(now: Clock): State<F, N, P> {
    State(now, map[], map[], map[], map[])
  }

  function LiveRow<F, N, P>(s: State<F, N, P>, id: Id): Option<Row<F>> {
    if id in s.rows && s.rows[id].Live() then Some(s.rows[id]) else None
  }

  /** The unique index refuses these fields: a committed row, archived or not, has their key. */
  predicate Duplicate<F, N, P>(svc: Service<F, N, P>, s: State<F, N, P>, f: F) {
    exists id :: id in s.rows && svc.clash(s.rows[id].fields, f)
  }

  /** The statement can run now; a unique INSERT waits for uncommitted rows of its key, an UPDATE for the row's holder. */
  predicate Enabled<F, N, P>(svc: Service<F, N, P>, s: State<F, N, P>, a: Action<N, P>) {
    match a
    case Tick(to) => s.now <= to
    case Insert(tx, id, input) =>
      && tx !in s.txs && id !in s.rows && id !in s.holders
      && forall t :: t in s.txs && s.txs[t].Creating? ==> !svc.clash(s.txs[t].after.fields, svc.make(input, s.now))
    case BeginUpdate(tx, _, _, patch) => tx !in s.txs && svc.accepts(patch)
    case BeginArchive(tx, _) => tx !in s.txs
    case Read(tx) => tx in s.txs && (s.txs[tx].Updating? || s.txs[tx].Archiving?)
    case Compute(tx) => tx in s.txs && s.txs[tx].UpdateRead?
    case Write(tx) => tx in s.txs && (s.txs[tx].UpdateReady? || s.txs[tx].ArchiveRead?) && s.txs[tx].id !in s.holders
    case Commit(tx) => tx in s.txs && s.txs[tx].Holds()
    case Rollback(tx) => tx in s.txs
  }

  function EventOf<F, N, P>(t: Tx<F, N, P>): (e: Event<F, N, P>)
    requires t.Holds()
    ensures e.after == t.after
  {
    match t
    case Creating(_, input, at, after) => Created(input, at, after)
    case UpdateWritten(_, patch, before, at, after) => Updated(patch, at, before, after)
    case ArchiveWritten(_, at, before, after) => Archived(at, before, after)
  }

  function Events<F, N, P>(s: State<F, N, P>, id: Id): seq<Event<F, N, P>> {
    if id in s.audit then s.audit[id] else []
  }

  /** Drops a transaction and what it holds: ROLLBACK, NotFoundException, ConflictException. */
  function End<F, N, P>(s: State<F, N, P>, tx: TxId): State<F, N, P>
    requires tx in s.txs
  {
    s.(txs := s.txs - {tx}, holders := if s.txs[tx].Holds() then s.holders - {s.txs[tx].id} else s.holders)
  }

  /** The UPDATE of the row matches its WHERE clause. */
  predicate Matches<F, N, P>(s: State<F, N, P>, t: Tx<F, N, P>) {
    LiveRow(s, t.id).Some? && (t.UpdateReady? ==> s.rows[t.id].version == t.version)
  }

  function Next<F, N, P>(svc: Service<F, N, P>, s: State<F, N, P>, a: Action<N, P>): State<F, N, P>
    requires Enabled(svc, s, a)
  {
    match a
    case Tick(to) => s.(now := to)
    case Insert(tx, id, input) =>
      if Duplicate(svc, s, svc.make(input, s.now)) then s else
        s.(txs := s.txs[tx := Creating(id, input, s.now, Row(svc.make(input, s.now), 1, None))],
           holders := s.holders[id := tx])
    case BeginUpdate(tx, id, version, patch) => s.(txs := s.txs[tx := Updating(id, version, patch)])
    case BeginArchive(tx, id) => s.(txs := s.txs[tx := Archiving(id, s.now)])
    case Read(tx) =>
      var t := s.txs[tx];
      if LiveRow(s, t.id).None? then End(s, tx)
      else if t.Updating? then s.(txs := s.txs[tx := UpdateRead(t.id, t.version, t.patch, s.rows[t.id])])
      else s.(txs := s.txs[tx := ArchiveRead(t.id, t.at, s.rows[t.id])])
    case Compute(tx) =>
      var t := s.txs[tx];
      s.(txs := s.txs[tx := UpdateReady(t.id, t.version, t.patch, t.before, s.now,
                                        svc.apply(t.before.fields, t.patch, s.now))])
    case Write(tx) =>
      var t := s.txs[tx];
      if !Matches(s, t) then End(s, tx)
      else if t.UpdateReady? then
        s.(txs := s.txs[tx := UpdateWritten(t.id, t.patch, t.before, t.at, Row(t.next, t.before.version + 1, None))],
           holders := s.holders[t.id := tx])
      else
        s.(txs := s.txs[tx := ArchiveWritten(t.id, t.at, t.before, s.rows[t.id].(deletedAt := Some(t.at)))],
           holders := s.holders[t.id := tx])
    case Commit(tx) =>
      var t := s.txs[tx];
      End(s, tx).(rows := s.rows[t.id := t.after], audit := s.audit[t.id := Events(s, t.id) + [EventOf(t)]])
    case Rollback(tx) => End(s, tx)
  }

  // ---- runs ----

  ghost predicate Legal<F, N, P>(svc: Service<F, N, P>, s: State<F, N, P>, trace: seq<Action<N, P>>)
    decreases |trace|
  {
    trace != [] ==> Enabled(svc, s, trace[0]) && Legal(svc, Next(svc, s, trace[0]), trace[1..])
  }

  ghost function Exec<F, N, P>(svc: Service<F, N, P>, s: State<F, N, P>, trace: seq<Action<N, P>>): State<F, N, P>
    requires Legal(svc, s, trace)
    decreases |trace|
  {
    if trace == [] then s else Exec(svc, Next(svc, s, trace[0]), trace[1..])
  }

  /** This action is an UPDATE that is about to succeed. */
  predicate Succeeds<F, N, P>(s: State<F, N, P>, a: Action<N, P>) {
    a.Write? && a.tx in s.txs && s.txs[a.tx].UpdateReady? && Matches(s, s.txs[a.tx])
  }

  /** Every successful UPDATE names the version it read: the check a service could make before it writes. */
  ghost predicate Guarded<F, N, P>(svc: Service<F, N, P>, s: State<F, N, P>, trace: seq<Action<N, P>>)
    requires Legal(svc, s, trace)
    decreases |trace|
  {
    trace != [] ==>
      && (Succeeds(s, trace[0]) ==> s.txs[trace[0].tx].version == s.txs[trace[0].tx].before.version)
      && Guarded(svc, Next(svc, s, trace[0]), trace[1..])
  }

  /** Every successful UPDATE overwrites exactly the row it read. */
  ghost predicate Faithful<F, N, P>(svc: Service<F, N, P>, s: State<F, N, P>, trace: seq<Action<N, P>>)
    requires Legal(svc, s, trace)
    decreases |trace|
  {
    trace != [] ==>
      && (Succeeds(s, trace[0]) ==> s.txs[trace[0].tx].before == s.rows[s.txs[trace[0].tx].id])
      && Faithful(svc, Next(svc, s, trace[0]), trace[1..])
  }

  /** A client has seen this version in a committed row. */
  ghost predicate Learned<F, N, P>(s: State<F, N, P>, id: Id, version: int) {
    exists k :: 0 <= k < |Events(s, id)| && Events(s, id)[k].after.version == version
  }

  /** Clients send only versions they learned from a committed row. */
  ghost predicate Disciplined<F, N, P>(svc: Service<F, N, P>, s: State<F, N, P>, trace: seq<Action<N, P>>)
    requires Legal(svc, s, trace)
    decreases |trace|
  {
    trace != [] ==>
      && (trace[0].BeginUpdate? ==> Learned(s, trace[0].id, trace[0].version))
      && Disciplined(svc, Next(svc, s, trace[0]), trace[1..])
  }

  // ---- the history of one row ----

  /** e is what the service does, alone, to a row that is at `prev`. */
  ghost predicate Link<F, N, P>(svc: Service<F, N, P>, prev: Row<F>, e: Event<F, N, P>) {
    && prev.Live()
    && match e
       case Created(_, _, _) => false
       case Updated(patch, at, before, after) =>
         before == prev && after == Row(svc.apply(prev.fields, patch, at), prev.version + 1, None)
       case Archived(at, _, after) => after == prev.(deletedAt := Some(at))
  }

  ghost predicate Chain<F, N, P>(svc: Service<F, N, P>, events: seq<Event<F, N, P>>) {
    && (events != [] ==>
          events[0].Created? && events[0].after == Row(svc.make(events[0].input, events[0].at), 1, None))
    && forall k :: 0 < k < |events| ==> Link(svc, events[k - 1].after, events[k])
  }

  /** The row after running the recorded requests one after the other, with no concurrency. */
  ghost function Replay<F, N, P>(svc: Service<F, N, P>, events: seq<Event<F, N, P>>): Row<F>
    requires events != []
  {
    var last := events[|events| - 1];
    if |events| == 1 || last.Created? then
      if last.Created? then Row(svc.make(last.input, last.at), 1, None) else last.after
    else
      var prev := Replay(svc, events[..|events| - 1]);
      if last.Updated? then Row(svc.apply(prev.fields, last.patch, last.at), prev.version + 1, None)
      else prev.(deletedAt := Some(last.at))
  }

  lemma {:induction false} ChainReplays<F, N, P>(svc: Service<F, N, P>, events: seq<Event<F, N, P>>)
    requires Chain(svc, events) && events != []
    ensures events[|events| - 1].after == Replay(svc, events)
  {
    if |events| > 1 {
      var front := events[..|events| - 1];
      ChainReplays(svc, front);
      assert Link(svc, events[|events| - 2].after, events[|events| - 1]);
    }
  }

  /** Versions rise along a history; they stay only at the archive that ends it. */
  lemma {:induction false} VersionsRise<F, N, P>(svc: Service<F, N, P>, events: seq<Event<F, N, P>>, i: nat, j: nat)
    requires Chain(svc, events) && i <= j < |events|
    ensures events[i].after.version <= events[j].after.version
    ensures i < j && events[j].after.Live() ==> events[i].after.version < events[j].after.version
    decreases j
  {
    if i < j {
      VersionsRise(svc, events, i, j - 1);
      assert Link(svc, events[j - 1].after, events[j]);
    }
  }

  /** Update k of a history writes version k + 1, so each version has exactly one winner. */
  lemma {:induction false} VersionsCountUpdates<F, N, P>(svc: Service<F, N, P>, events: seq<Event<F, N, P>>, k: nat)
    requires Chain(svc, events) && k < |events|
    ensures events[k].Updated? ==> events[k].before.version == k && events[k].after.version == k + 1
    ensures events[k].Archived? ==> k == |events| - 1 && events[k].after.version == k
    ensures events[k].Created? <==> k == 0
    decreases k
  {
    if k > 0 {
      VersionsCountUpdates(svc, events, k - 1);
      assert Link(svc, events[k - 1].after, events[k]);
      if k + 1 < |events| {
        assert Link(svc, events[k].after, events[k + 1]);
      }
    }
  }

  // ---- invariants of every run whose updates are guarded ----

  /** The row was committed at some time, and lived. */
  ghost predicate Seen<F, N, P>(s: State<F, N, P>, id: Id, row: Row<F>) {
    row.Live() && exists k :: 0 <= k < |Events(s, id)| && Events(s, id)[k].after == row
  }

  ghost predicate TxOk<F, N, P>(svc: Service<F, N, P>, s: State<F, N, P>, t: Tx<F, N, P>) {
    match t
    case Creating(id, input, at, after) => id !in s.rows && after == Row(svc.make(input, at), 1, None)
    case Updating(_, _, _) => true
    case UpdateRead(id, _, _, before) => Seen(s, id, before)
    case UpdateReady(id, _, patch, before, at, next) => Seen(s, id, before) && next == svc.apply(before.fields, patch, at)
    case UpdateWritten(id, patch, before, at, after) => id in s.rows && Link(svc, s.rows[id], EventOf(t))
    case Archiving(_, _) => true
    case ArchiveRead(_, _, _) => true
    case ArchiveWritten(id, at, _, after) => id in s.rows && Link(svc, s.rows[id], EventOf(t))
  }

  ghost predicate RowOk<F, N, P>(svc: Service<F, N, P>, s: State<F, N, P>, id: Id) {
    var events := Events(s, id);
    && (id in s.rows <==> events != [])
    && Chain(svc, events)
    && (events != [] ==> s.rows[id] == events[|events| - 1].after)
  }

  ghost predicate HoldersOk<F, N, P>(s: State<F, N, P>) {
    && (forall id :: id in s.holders ==> s.holders[id] in s.txs && s.txs[s.holders[id]].Holds() && s.txs[s.holders[id]].id == id)
    && (forall tx :: tx in s.txs && s.txs[tx].Holds() ==> s.txs[tx].id in s.holders && s.holders[s.txs[tx].id] == tx)
  }

  ghost predicate Inv<F, N, P>(svc: Service<F, N, P>, s: State<F, N, P>) {
    && HoldersOk(s)
    && (forall id :: RowOk(svc, s, id))
    && (forall tx :: tx in s.txs ==> TxOk(svc, s, s.txs[tx]))
  }

  lemma HoldersStayOk<F, N, P>(svc: Service<F, N, P>, s: State<F, N, P>, a: Action<N, P>)
    requires HoldersOk(s) && Enabled(svc, s, a)
    ensures HoldersOk(Next(svc, s, a))
  {
    var s' := Next(svc, s, a);
    forall id | id in s'.holders
      ensures s'.holders[id] in s'.txs && s'.txs[s'.holders[id]].Holds() && s'.txs[s'.holders[id]].id == id
    {
      HeldByItsHolder(svc, s, a, id);
    }
  }

  lemma HeldByItsHolder<F, N, P>(svc: Service<F, N, P>, s: State<F, N, P>, a: Action<N, P>, id: Id)
    requires HoldersOk(s) && Enabled(svc, s, a) && id in Next(svc, s, a).holders
    ensures var s' := Next(svc, s, a);
      s'.holders[id] in s'.txs && s'.txs[s'.holders[id]].Holds() && s'.txs[s'.holders[id]].id == id
  {
    if id in s.holders {
      assert s.txs[s.holders[id]].Holds() && s.txs[s.holders[id]].id == id;
    }
  }

  /** A seen row of the version and life of the committed row is the committed row. */
  lemma SameVersionIsSameRow<F, N, P>(svc: Service<F, N, P>, s: State<F, N, P>, id: Id, row: Row<F>)
    requires RowOk(svc, s, id) && LiveRow(s, id).Some? && Seen(s, id, row) && row.version == s.rows[id].version
    ensures row == s.rows[id]
  {
    var events := Events(s, id);
    var k :| 0 <= k < |events| && events[k].after == row;
    VersionsRise(svc, events, k, |events| - 1);
  }

  /** A guarded UPDATE that succeeds overwrites exactly what it read. */
  lemma GuardedWriteIsFaithful<F, N, P>(svc: Service<F, N, P>, s: State<F, N, P>, a: Action<N, P>)
    requires Inv(svc, s) && Succeeds(s, a)
    requires s.txs[a.tx].version == s.txs[a.tx].before.version
    ensures s.txs[a.tx].before == s.rows[s.txs[a.tx].id]
  {
    var t := s.txs[a.tx];
    assert RowOk(svc, s, t.id) && TxOk(svc, s, t);
    SameVersionIsSameRow(svc, s, t.id, t.before);
  }

  lemma SeenStaysSeen<F, N, P>(s: State<F, N, P>, s': State<F, N, P>, id: Id, row: Row<F>)
    requires Events(s, id) <= Events(s', id) && Seen(s, id, row)
    ensures Seen(s', id, row)
  {
    var k :| 0 <= k < |Events(s, id)| && Events(s, id)[k].after == row;
    assert Events(s', id)[k].after == row;
  }

  lemma CommittedRowIsSeen<F, N, P>(svc: Service<F, N, P>, s: State<F, N, P>, id: Id)
    requires RowOk(svc, s, id) && LiveRow(s, id).Some?
    ensures Seen(s, id, s.rows[id])
  {
    assert Events(s, id)[|Events(s, id)| - 1].after == s.rows[id];
  }

  /** Statements other than COMMIT leave the committed rows alone; the transaction that moved is in order. */
  lemma QuietStepKeepsInv<F, N, P>(svc: Service<F, N, P>, s: State<F, N, P>, a: Action<N, P>)
    requires Inv(svc, s) && Enabled(svc, s, a) && !a.Commit?
    requires Succeeds(s, a) ==> s.txs[a.tx].before == s.rows[s.txs[a.tx].id]
    ensures Inv(svc, Next(svc, s, a))
  {
    var s' := Next(svc, s, a);
    HoldersStayOk(svc, s, a);
    assert s'.rows == s.rows && s'.audit == s.audit;
    forall id ensures RowOk(svc, s', id) {
      assert RowOk(svc, s, id);
    }
    forall tx | tx in s'.txs ensures TxOk(svc, s', s'.txs[tx]) {
      if tx in s.txs && s'.txs[tx] == s.txs[tx] {
        TxOkFrame(svc, s, s', s.txs[tx]);
      } else {
        MovedTxIsOk(svc, s, a, tx);
      }
    }
  }

  lemma TxOkFrame<F, N, P>(svc: Service<F, N, P>, s: State<F, N, P>, s': State<F, N, P>, t: Tx<F, N, P>)
    requires s'.rows == s.rows && s'.audit == s.audit && TxOk(svc, s, t)
    ensures TxOk(svc, s', t)
  {
    if t.UpdateRead? || t.UpdateReady? {
      SeenStaysSeen(s, s', t.id, t.before);
    }
  }

  lemma MovedTxIsOk<F, N, P>(svc: Service<F, N, P>, s: State<F, N, P>, a: Action<N, P>, tx: TxId)
    requires Inv(svc, s) && Enabled(svc, s, a) && !a.Commit? && tx in Next(svc, s, a).txs
    requires Succeeds(s, a) ==> s.txs[a.tx].before == s.rows[s.txs[a.tx].id]
    requires tx !in s.txs || Next(svc, s, a).txs[tx] != s.txs[tx]
    ensures TxOk(svc, Next(svc, s, a), Next(svc, s, a).txs[tx])
  {
    var s' := Next(svc, s, a);
    if tx in s.txs {
      var t := s.txs[tx];
      assert TxOk(svc, s, t) && RowOk(svc, s, t.id);
      if a.Read? && t.Updating? {
        CommittedRowIsSeen(svc, s, t.id);
        SeenStaysSeen(s, s', t.id, s.rows[t.id]);
      } else if a.Compute? {
        SeenStaysSeen(s, s', t.id, t.before);
      }
    }
  }

  lemma CommitKeepsInv<F, N, P>(svc: Service<F, N, P>, s: State<F, N, P>, tx: TxId)
    requires Inv(svc, s) && Enabled(svc, s, Commit(tx))
    ensures Inv(svc, Next(svc, s, Action<N, P>.Commit(tx)))
  {
    var t, s' := s.txs[tx], Next(svc, s, Action<N, P>.Commit(tx));
    HoldersStayOk(svc, s, Action<N, P>.Commit(tx));
    assert TxOk(svc, s, t);
    forall id ensures RowOk(svc, s', id) {
      assert RowOk(svc, s, id);
    }
    forall other | other in s'.txs ensures TxOk(svc, s', s'.txs[other]) {
      assert TxOk(svc, s, s.txs[other]);
      var o := s.txs[other];
      if o.UpdateRead? || o.UpdateReady? {
        SeenStaysSeen(s, s', o.id, o.before);
      }
    }
  }

  lemma StepKeepsInv<F, N, P>(svc: Service<F, N, P>, s: State<F, N, P>, a: Action<N, P>)
    requires Inv(svc, s) && Enabled(svc, s, a)
    requires Succeeds(s, a) ==> s.txs[a.tx].before == s.rows[s.txs[a.tx].id]
    ensures Inv(svc, Next(svc, s, a))
  {
    if a.Commit? {
      CommitKeepsInv(svc, s, a.tx);
    } else {
      QuietStepKeepsInv(svc, s, a);
    }
  }

  lemma {:induction false} FaithfulRunKeepsInv<F, N, P>(svc: Service<F, N, P>, s: State<F, N, P>, trace: seq<Action<N, P>>)
    requires Inv(svc, s) && Legal(svc, s, trace) && Faithful(svc, s, trace)
    ensures Inv(svc, Exec(svc, s, trace))
    decreases |trace|
  {
    if trace != [] {
      StepKeepsInv(svc, s, trace[0]);
      FaithfulRunKeepsInv(svc, Next(svc, s, trace[0]), trace[1..]);
    }
  }

  /**
    For every run: all successful updates overwrite what they read if and only if every successful update
    names the version it read, whatever the clients sent.
  */
  lemma {:induction false} FaithfulIffGuarded<F, N, P>(svc: Service<F, N, P>, s: State<F, N, P>, trace: seq<Action<N, P>>)
    requires Inv(svc, s) && Legal(svc, s, trace)
    ensures Faithful(svc, s, trace) <==> Guarded(svc, s, trace)
    decreases |trace|
  {
    if trace != [] {
      var a := trace[0];
      if Succeeds(s, a) && s.txs[a.tx].version == s.txs[a.tx].before.version {
        GuardedWriteIsFaithful(svc, s, a);
      }
      if Succeeds(s, a) ==> s.txs[a.tx].before == s.rows[s.txs[a.tx].id] {
        StepKeepsInv(svc, s, a);
        FaithfulIffGuarded(svc, Next(svc, s, a), trace[1..]);
      }
    }
  }

  lemma InitIsOk<F, N, P>(svc: Service<F, N, P>, now: Clock)
    ensures Inv(svc, Init<F, N, P>(now))
  {
  }

  /**
    Serialisability: after a guarded run from an empty database, every committed row is what its recorded
    requests give when they run one after the other, and version v was written by update v - 1 alone.
  */
  lemma GuardedRunsAreSerial<F, N, P>(svc: Service<F, N, P>, now: Clock, trace: seq<Action<N, P>>, id: Id)
    requires Legal(svc, Init(now), trace) && Guarded(svc, Init(now), trace)
    ensures var s := Exec(svc, Init(now), trace); id in s.rows ==>
      && Chain(svc, Events(s, id)) && Events(s, id) != []
      && s.rows[id] == Replay(svc, Events(s, id))
      && forall k :: 0 <= k < |Events(s, id)| && Events(s, id)[k].Updated? ==>
           Events(s, id)[k].before.version == k && Events(s, id)[k].after.version == k + 1
  {
    InitIsOk(svc, now);
    FaithfulIffGuarded(svc, Init(now), trace);
    FaithfulRunKeepsInv(svc, Init(now), trace);
    var s := Exec(svc, Init(now), trace);
    assert RowOk(svc, s, id);
    if id in s.rows {
      ChainReplays(svc, Events(s, id));
      forall k | 0 <= k < |Events(s, id)| && Events(s, id)[k].Updated?
        ensures Events(s, id)[k].before.version == k && Events(s, id)[k].after.version == k + 1
      {
        VersionsCountUpdates(svc, Events(s, id), k);
      }
    }
  }

  // ---- clients that send only what they learned ----

  ghost predicate VersionOk<F, N, P>(s: State<F, N, P>, t: Tx<F, N, P>) {
    && (t.Updating? ==> Learned(s, t.id, t.version))
    && (t.UpdateRead? || t.UpdateReady? ==> t.version <= t.before.version)
  }

  ghost predicate ClientInv<F, N, P>(svc: Service<F, N, P>, s: State<F, N, P>) {
    Inv(svc, s) && forall tx :: tx in s.txs ==> VersionOk(s, s.txs[tx])
  }

  lemma LearnedIsNotAhead<F, N, P>(svc: Service<F, N, P>, s: State<F, N, P>, id: Id, version: int)
    requires RowOk(svc, s, id) && Learned(s, id, version)
    ensures id in s.rows && version <= s.rows[id].version
  {
    var events := Events(s, id);
    var k :| 0 <= k < |events| && events[k].after.version == version;
    VersionsRise(svc, events, k, |events| - 1);
  }

  lemma LearnedStaysLearned<F, N, P>(s: State<F, N, P>, s': State<F, N, P>, id: Id, version: int)
    requires Events(s, id) <= Events(s', id) && Learned(s, id, version)
    ensures Learned(s', id, version)
  {
    var k :| 0 <= k < |Events(s, id)| && Events(s, id)[k].after.version == version;
    assert Events(s', id)[k].after.version == version;
  }

  lemma DisciplinedWriteIsGuarded<F, N, P>(svc: Service<F, N, P>, s: State<F, N, P>, a: Action<N, P>)
    requires ClientInv(svc, s) && Succeeds(s, a)
    ensures s.txs[a.tx].version == s.txs[a.tx].before.version
  {
    var t := s.txs[a.tx];
    assert RowOk(svc, s, t.id) && TxOk(svc, s, t) && VersionOk(s, t);
    var k :| 0 <= k < |Events(s, t.id)| && Events(s, t.id)[k].after == t.before;
    VersionsRise(svc, Events(s, t.id), k, |Events(s, t.id)| - 1);
  }

  lemma DisciplinedStep<F, N, P>(svc: Service<F, N, P>, s: State<F, N, P>, a: Action<N, P>)
    requires ClientInv(svc, s) && Enabled(svc, s, a)
    requires a.BeginUpdate? ==> Learned(s, a.id, a.version)
    ensures ClientInv(svc, Next(svc, s, a))
  {
    var s' := Next(svc, s, a);
    if Succeeds(s, a) {
      DisciplinedWriteIsGuarded(svc, s, a);
      GuardedWriteIsFaithful(svc, s, a);
    }
    StepKeepsInv(svc, s, a);
    forall tx | tx in s'.txs ensures VersionOk(s', s'.txs[tx]) {
      VersionStaysOk(svc, s, a, tx);
    }
  }

  lemma VersionStaysOk<F, N, P>(svc: Service<F, N, P>, s: State<F, N, P>, a: Action<N, P>, tx: TxId)
    requires ClientInv(svc, s) && Enabled(svc, s, a) && tx in Next(svc, s, a).txs
    requires a.BeginUpdate? ==> Learned(s, a.id, a.version)
    ensures VersionOk(Next(svc, s, a), Next(svc, s, a).txs[tx])
  {
    var s' := Next(svc, s, a);
    if tx in s.txs {
      assert VersionOk(s, s.txs[tx]);
      EventsOnlyGrow(svc, s, a, s.txs[tx].id);
      if a.Read? && a.tx == tx {
        ReadVersionIsOk(svc, s, tx);
      } else if s.txs[tx].Updating? {
        LearnedStaysLearned(s, s', s.txs[tx].id, s.txs[tx].version);
      }
    } else if a.BeginUpdate? {
      LearnedStaysLearned(s, s', a.id, a.version);
    }
  }

  lemma EventsOnlyGrow<F, N, P>(svc: Service<F, N, P>, s: State<F, N, P>, a: Action<N, P>, id: Id)
    requires Enabled(svc, s, a)
    ensures Events(s, id) <= Events(Next(svc, s, a), id)
  {
  }

  /** A version that was learned before the row is read is not ahead of the row. */
  lemma ReadVersionIsOk<F, N, P>(svc: Service<F, N, P>, s: State<F, N, P>, tx: TxId)
    requires ClientInv(svc, s) && Enabled(svc, s, Read(tx)) && tx in Next(svc, s, Action<N, P>.Read(tx)).txs
    ensures VersionOk(Next(svc, s, Action<N, P>.Read(tx)), Next(svc, s, Action<N, P>.Read(tx)).txs[tx])
  {
    var t := s.txs[tx];
    assert VersionOk(s, t) && RowOk(svc, s, t.id);
    if t.Updating? {
      LearnedIsNotAhead(svc, s, t.id, t.version);
    }
  }

  /** Clients that send only versions learned from committed rows make every run guarded. */
  lemma {:induction false} DisciplineIsEnough<F, N, P>(svc: Service<F, N, P>, s: State<F, N, P>, trace: seq<Action<N, P>>)
    requires ClientInv(svc, s) && Legal(svc, s, trace) && Disciplined(svc, s, trace)
    ensures Guarded(svc, s, trace) && ClientInv(svc, Exec(svc, s, trace))
    decreases |trace|
  {
    if trace != [] {
      if Succeeds(s, trace[0]) {
        DisciplinedWriteIsGuarded(svc, s, trace[0]);
      }
      DisciplinedStep(svc, s, trace[0]);
      DisciplineIsEnough(svc, Next(svc, s, trace[0]), trace[1..]);
    }
  }

  /** No lost update: with such clients every update overwrites the live row it read, in every interleaving. */
  lemma NoLostUpdates<F, N, P>(svc: Service<F, N, P>, now: Clock, trace: seq<Action<N, P>>)
    requires Legal(svc, Init(now), trace) && Disciplined(svc, Init(now), trace)
    ensures Faithful(svc, Init(now), trace) && ClientInv(svc, Exec(svc, Init(now), trace))
  {
    InitIsOk(svc, now);
    DisciplineIsEnough(svc, Init(now), trace);
    FaithfulIffGuarded(svc, Init(now), trace);
  }

  // ---- what one step, and a whole run, may do to a committed row ----

  /** The committed row stays, or takes exactly one recorded request. */
  ghost predicate OneRequest<F, N, P>(svc: Service<F, N, P>, s: State<F, N, P>, s': State<F, N, P>, id: Id) {
    var had, will := Events(s, id), Events(s', id);
    id in s.rows ==>
      && id in s'.rows
      && (s'.rows[id] == s.rows[id]
          || (had < will && |will| == |had| + 1 && will[|had|].after == s'.rows[id] && Link(svc, s.rows[id], will[|had|])))
  }

  lemma StepIsOneRequest<F, N, P>(svc: Service<F, N, P>, s: State<F, N, P>, a: Action<N, P>, id: Id)
    requires Inv(svc, s) && Enabled(svc, s, a)
    ensures OneRequest(svc, s, Next(svc, s, a), id)
  {
    if a.Commit? && s.txs[a.tx].id == id && id in s.rows {
      assert TxOk(svc, s, s.txs[a.tx]);
      assert Link(svc, s.rows[id], EventOf(s.txs[a.tx]));
    }
  }

  /** A property of fields that every request keeps is never lost in a faithful run; nor is an archive ever undone. */
  lemma {:induction false} StickyFields<F, N, P>(
    svc: Service<F, N, P>, s: State<F, N, P>, trace: seq<Action<N, P>>, id: Id, sticky: F -> bool)
    requires Inv(svc, s) && Legal(svc, s, trace) && Faithful(svc, s, trace) && id in s.rows
    requires forall f: F, p: P, at: Clock {:trigger svc.apply(f, p, at)} :: sticky(f) ==> sticky(svc.apply(f, p, at))
    ensures id in Exec(svc, s, trace).rows
    ensures sticky(s.rows[id].fields) ==> sticky(Exec(svc, s, trace).rows[id].fields)
    ensures !s.rows[id].Live() ==> Exec(svc, s, trace).rows[id] == s.rows[id]
    decreases |trace|
  {
    if trace != [] {
      StepIsOneRequest(svc, s, trace[0], id);
      StepKeepsInv(svc, s, trace[0]);
      StickyFields(svc, Next(svc, s, trace[0]), trace[1..], id, sticky);
    }
  }

  // ---- what holds of every run, whatever the clients send ----

  /** Who holds a row holds a live one, or one that is not there yet. */
  ghost predicate HeldRowsOk<F, N, P>(s: State<F, N, P>) {
    forall tx :: tx in s.txs && s.txs[tx].Holds() ==>
      if s.txs[tx].Creating? then s.txs[tx].id !in s.rows else LiveRow(s, s.txs[tx].id).Some?
  }

  lemma HeldRowsStayOk<F, N, P>(svc: Service<F, N, P>, s: State<F, N, P>, a: Action<N, P>)
    requires HoldersOk(s) && HeldRowsOk(s) && Enabled(svc, s, a)
    ensures HeldRowsOk(Next(svc, s, a))
  {
    var s' := Next(svc, s, a);
    forall tx | tx in s'.txs && s'.txs[tx].Holds()
      ensures if s'.txs[tx].Creating? then s'.txs[tx].id !in s'.rows else LiveRow(s', s'.txs[tx].id).Some?
    {
      if a.Commit? {
        assert tx != a.tx && s'.txs[tx] == s.txs[tx] && s.txs[tx].id != s.txs[a.tx].id;
      }
    }
  }

  lemma ArchivedRowStays<F, N, P>(svc: Service<F, N, P>, s: State<F, N, P>, a: Action<N, P>, id: Id)
    requires HeldRowsOk(s) && Enabled(svc, s, a) && id in s.rows && !s.rows[id].Live()
    ensures id in Next(svc, s, a).rows && Next(svc, s, a).rows[id] == s.rows[id]
  {
  }

  lemma {:induction false} ArchivedRowOutlivesRun<F, N, P>(svc: Service<F, N, P>, s: State<F, N, P>, trace: seq<Action<N, P>>, id: Id)
    requires HoldersOk(s) && HeldRowsOk(s) && Legal(svc, s, trace) && id in s.rows && !s.rows[id].Live()
    ensures id in Exec(svc, s, trace).rows && Exec(svc, s, trace).rows[id] == s.rows[id]
    decreases |trace|
  {
    if trace != [] {
      ArchivedRowStays(svc, s, trace[0], id);
      HeldRowsStayOk(svc, s, trace[0]);
      HoldersStayOk(svc, s, trace[0]);
      ArchivedRowOutlivesRun(svc, Next(svc, s, trace[0]), trace[1..], id);
    }
  }

  /** The two conditions on holders hold in every run from an empty database. */
  lemma {:induction false} HoldersInEveryRun<F, N, P>(svc: Service<F, N, P>, s: State<F, N, P>, trace: seq<Action<N, P>>)
    requires HoldersOk(s) && HeldRowsOk(s) && Legal(svc, s, trace)
    ensures HoldersOk(Exec(svc, s, trace)) && HeldRowsOk(Exec(svc, s, trace))
    decreases |trace|
  {
    if trace != [] {
      HeldRowsStayOk(svc, s, trace[0]);
      HoldersStayOk(svc, s, trace[0]);
      HoldersInEveryRun(svc, Next(svc, s, trace[0]), trace[1..]);
    }
  }

  /** Once any run of any clients has archived a row, no continuation changes it again: it is never un-archived. */
  lemma ArchiveIsFinal<F, N, P>(svc: Service<F, N, P>, now: Clock, run: seq<Action<N, P>>, rest: seq<Action<N, P>>, id: Id)
    requires Legal(svc, Init(now), run) && Legal(svc, Exec(svc, Init(now), run), rest)
    ensures var s := Exec(svc, Init(now), run); id in s.rows && !s.rows[id].Live() ==>
      id in Exec(svc, s, rest).rows && Exec(svc, s, rest).rows[id] == s.rows[id]
  {
    HoldersInEveryRun(svc, Init(now), run);
    var s := Exec(svc, Init(now), run);
    if id in s.rows && !s.rows[id].Live() {
      ArchivedRowOutlivesRun(svc, s, rest, id);
    }
  }

  /** Requests leave the key of a row as it was. */
  ghost predicate KeepsKeys<F(!new), N, P(!new)>(svc: Service<F, N, P>) {
    && (forall f: F, g: F {:trigger svc.clash(f, g)} :: svc.clash(f, g) == svc.clash(g, f))
    && (forall f: F, g: F, p: P, t: Clock {:trigger svc.clash(svc.apply(f, p, t), g)} ::
          svc.clash(svc.apply(f, p, t), g) == svc.clash(f, g))
  }

  ghost predicate Apart<F, N, P>(svc: Service<F, N, P>, s: State<F, N, P>) {
    && (forall i, j {:trigger s.rows[i], s.rows[j]} :: i in s.rows && j in s.rows && i != j ==> !svc.clash(s.rows[i].fields, s.rows[j].fields))
    && (forall i, t {:trigger s.rows[i], s.txs[t]} :: i in s.rows && t in s.txs && s.txs[t].Creating? ==>
          !svc.clash(s.rows[i].fields, s.txs[t].after.fields))
    && (forall t, u {:trigger s.txs[t], s.txs[u]} :: t in s.txs && u in s.txs && t != u && s.txs[t].Creating? && s.txs[u].Creating? ==>
          !svc.clash(s.txs[t].after.fields, s.txs[u].after.fields))
  }

  /** Nothing new stands for insertion and no committed row changes its key. */
  lemma ApartFrame<F(!new), N, P(!new)>(svc: Service<F, N, P>, s: State<F, N, P>, s': State<F, N, P>)
    requires Apart(svc, s) && s'.rows.Keys == s.rows.Keys && KeepsKeys(svc)
    requires forall t :: t in s'.txs && s'.txs[t].Creating? ==> t in s.txs && s'.txs[t] == s.txs[t]
    requires forall id, g :: id in s.rows ==> svc.clash(s'.rows[id].fields, g) == svc.clash(s.rows[id].fields, g)
    ensures Apart(svc, s')
  {
    forall i, j | i in s'.rows && j in s'.rows && i != j ensures !svc.clash(s'.rows[i].fields, s'.rows[j].fields) {
      assert svc.clash(s'.rows[j].fields, s.rows[i].fields) == svc.clash(s.rows[j].fields, s.rows[i].fields);
    }
  }

  lemma InsertKeepsApart<F(!new), N, P(!new)>(svc: Service<F, N, P>, s: State<F, N, P>, a: Action<N, P>)
    requires KeepsKeys(svc) && Apart(svc, s) && a.Insert? && Enabled(svc, s, a)
    ensures Apart(svc, Next(svc, s, a))
  {
  }

  /** f has the key of g: they clash with the same fields. */
  ghost predicate SameClashes<F(!new), N, P>(svc: Service<F, N, P>, f: F, g: F) {
    forall h: F {:trigger svc.clash(f, h)} {:trigger svc.clash(g, h)} :: svc.clash(f, h) == svc.clash(g, h)
  }

  /** What a transaction has read or wants to write has the key of the committed row. */
  ghost predicate KeyOk<F(!new), N, P>(svc: Service<F, N, P>, s: State<F, N, P>, t: Tx<F, N, P>) {
    match t
    case Creating(id, _, _, _) => id !in s.rows
    case UpdateRead(id, _, _, before) => id in s.rows && SameClashes(svc, before.fields, s.rows[id].fields)
    case UpdateReady(id, _, _, _, _, next) => id in s.rows && SameClashes(svc, next, s.rows[id].fields)
    case UpdateWritten(id, _, _, _, after) => id in s.rows && SameClashes(svc, after.fields, s.rows[id].fields)
    case ArchiveWritten(id, _, _, after) => id in s.rows && SameClashes(svc, after.fields, s.rows[id].fields)
    case _ => true
  }

  ghost predicate KeysOk<F(!new), N, P>(svc: Service<F, N, P>, s: State<F, N, P>) {
    HoldersOk(s) && Apart(svc, s) && forall tx :: tx in s.txs ==> KeyOk(svc, s, s.txs[tx])
  }

  /** Committed rows keep their keys from s to s', and no row appears. */
  ghost predicate SameKeys<F(!new), N, P>(svc: Service<F, N, P>, s: State<F, N, P>, s': State<F, N, P>) {
    && s'.rows.Keys == s.rows.Keys
    && forall id {:trigger s.rows[id]} :: id in s.rows ==> SameClashes(svc, s'.rows[id].fields, s.rows[id].fields)
  }

  lemma KeyOkFrame<F(!new), N, P>(svc: Service<F, N, P>, s: State<F, N, P>, s': State<F, N, P>, t: Tx<F, N, P>)
    requires KeyOk(svc, s, t) && SameKeys(svc, s, s')
    ensures KeyOk(svc, s', t)
  {
    if !t.Creating? && t.id in s.rows {
      assert SameClashes(svc, s'.rows[t.id].fields, s.rows[t.id].fields);
    }
  }

  lemma MovedKeyIsOk<F(!new), N, P(!new)>(svc: Service<F, N, P>, s: State<F, N, P>, a: Action<N, P>, tx: TxId)
    requires KeepsKeys(svc) && KeysOk(svc, s) && Enabled(svc, s, a) && !a.Commit? && tx in Next(svc, s, a).txs
    requires tx !in s.txs || Next(svc, s, a).txs[tx] != s.txs[tx]
    ensures KeyOk(svc, Next(svc, s, a), Next(svc, s, a).txs[tx])
  {
    if tx in s.txs {
      var t := s.txs[tx];
      assert KeyOk(svc, s, t);
      if a.Compute? {
        ComputedKey(svc, s.rows[t.id].fields, t.before.fields, t.patch, s.now);
      }
    }
  }

  lemma ComputedKey<F(!new), N, P(!new)>(svc: Service<F, N, P>, f: F, before: F, patch: P, now: Clock)
    requires KeepsKeys(svc) && SameClashes(svc, before, f)
    ensures SameClashes(svc, svc.apply(before, patch, now), f)
  {
    forall h: F ensures svc.clash(svc.apply(before, patch, now), h) == svc.clash(f, h) {
      assert svc.clash(before, h) == svc.clash(f, h);
    }
  }

  lemma CommitKeepsKeysOk<F(!new), N, P(!new)>(svc: Service<F, N, P>, s: State<F, N, P>, a: Action<N, P>)
    requires KeepsKeys(svc) && KeysOk(svc, s) && a.Commit? && Enabled(svc, s, a)
    ensures KeysOk(svc, Next(svc, s, a))
  {
    var s', t := Next(svc, s, a), s.txs[a.tx];
    HoldersStayOk(svc, s, a);
    assert KeyOk(svc, s, t) && s'.rows == s.rows[t.id := t.after];
    forall tx | tx in s'.txs ensures KeyOk(svc, s', s'.txs[tx]) {
      var o := s.txs[tx];
      assert KeyOk(svc, s, o) && (o.Creating? ==> o.id != t.id);
      if !t.Creating? {
        KeyOkFrame(svc, s, s', o);
      }
    }
    if !t.Creating? {
      ApartFrame(svc, s, s');
    }
  }

  lemma QuietStepKeepsKeys<F(!new), N, P(!new)>(svc: Service<F, N, P>, s: State<F, N, P>, a: Action<N, P>, tx: TxId)
    requires KeepsKeys(svc) && KeysOk(svc, s) && Enabled(svc, s, a) && !a.Commit? && tx in Next(svc, s, a).txs
    ensures KeyOk(svc, Next(svc, s, a), Next(svc, s, a).txs[tx])
  {
    if tx in s.txs && Next(svc, s, a).txs[tx] == s.txs[tx] {
      KeyOkFrame(svc, s, Next(svc, s, a), s.txs[tx]);
    } else {
      MovedKeyIsOk(svc, s, a, tx);
    }
  }

  lemma QuietStepKeepsApart<F(!new), N, P(!new)>(svc: Service<F, N, P>, s: State<F, N, P>, a: Action<N, P>)
    requires KeepsKeys(svc) && Apart(svc, s) && Enabled(svc, s, a) && !a.Commit?
    ensures Apart(svc, Next(svc, s, a))
  {
    if a.Insert? {
      InsertKeepsApart(svc, s, a);
    } else {
      ApartFrame(svc, s, Next(svc, s, a));
    }
  }

  lemma StepKeepsKeysOk<F(!new), N, P(!new)>(svc: Service<F, N, P>, s: State<F, N, P>, a: Action<N, P>)
    requires KeepsKeys(svc) && KeysOk(svc, s) && Enabled(svc, s, a)
    ensures KeysOk(svc, Next(svc, s, a))
  {
    if a.Commit? {
      CommitKeepsKeysOk(svc, s, a);
    } else {
      HoldersStayOk(svc, s, a);
      QuietStepKeepsApart(svc, s, a);
      forall tx | tx in Next(svc, s, a).txs ensures KeyOk(svc, Next(svc, s, a), Next(svc, s, a).txs[tx]) {
        QuietStepKeepsKeys(svc, s, a, tx);
      }
    }
  }

  /**
    The unique index holds in every run, whatever the clients send: no two committed rows, archived ones included,
    share a key, and no update moves a row to another key.
  */
  lemma {:induction false} KeysStayUnique<F(!new), N, P(!new)>(svc: Service<F, N, P>, s: State<F, N, P>, trace: seq<Action<N, P>>)
    requires KeepsKeys(svc) && KeysOk(svc, s) && Legal(svc, s, trace)
    ensures KeysOk(svc, Exec(svc, s, trace))
    decreases |trace|
  {
    if trace != [] {
      StepKeepsKeysOk(svc, s, trace[0]);
      KeysStayUnique(svc, Next(svc, s, trace[0]), trace[1..]);
    }
  }

  // ---- properties of single rows that hold whatever the clients send ----

  ghost predicate FieldsOk<F, N, P>(svc: Service<F, N, P>, t: Tx<F, N, P>, now: Clock, ok: (F, Clock) -> bool) {
    && (t.Updating? || t.UpdateRead? || t.UpdateReady? ==> svc.accepts(t.patch))
    && (t.UpdateRead? || t.UpdateReady? ==> ok(t.before.fields, now))
    && (t.UpdateReady? ==> ok(t.next, now))
    && (t.Holds() ==> ok(t.after.fields, now))
  }

  ghost predicate AllRowsOk<F, N, P>(svc: Service<F, N, P>, s: State<F, N, P>, ok: (F, Clock) -> bool) {
    && (forall id :: id in s.rows ==> ok(s.rows[id].fields, s.now))
    && (forall tx :: tx in s.txs ==> FieldsOk(svc, s.txs[tx], s.now, ok))
  }

  /** Time does not break ok, and what the service computes satisfies it at the moment it is computed. */
  ghost predicate Preserves<F(!new), N(!new), P(!new)>(svc: Service<F, N, P>, ok: (F, Clock) -> bool) {
    && (forall f: F, t0: Clock, t1: Clock {:trigger ok(f, t0), ok(f, t1)} :: t0 <= t1 && ok(f, t0) ==> ok(f, t1))
    && (forall n: N, t: Clock {:trigger svc.make(n, t)} :: ok(svc.make(n, t), t))
    && (forall f: F, p: P, t: Clock {:trigger svc.apply(f, p, t)} ::
          svc.accepts(p) && ok(f, t) ==> ok(svc.apply(f, p, t), t))
  }

  lemma StepKeepsRowsOk<F(!new), N(!new), P(!new)>(
    svc: Service<F, N, P>, s: State<F, N, P>, a: Action<N, P>, ok: (F, Clock) -> bool)
    requires Preserves(svc, ok) && AllRowsOk(svc, s, ok) && Enabled(svc, s, a)
    ensures AllRowsOk(svc, Next(svc, s, a), ok)
  {
    var s' := Next(svc, s, a);
    forall tx | tx in s'.txs ensures FieldsOk(svc, s'.txs[tx], s'.now, ok) {
      if tx in s.txs {
        assert FieldsOk(svc, s.txs[tx], s.now, ok);
      }
    }
    if a.Commit? {
      assert FieldsOk(svc, s.txs[a.tx], s.now, ok);
    }
  }

  /** With or without discipline of the clients, a property the service preserves holds of every committed row in every run. */
  lemma {:induction false} RowsStayOk<F(!new), N(!new), P(!new)>(
    svc: Service<F, N, P>, s: State<F, N, P>, trace: seq<Action<N, P>>, ok: (F, Clock) -> bool)
    requires Preserves(svc, ok) && AllRowsOk(svc, s, ok) && Legal(svc, s, trace)
    ensures AllRowsOk(svc, Exec(svc, s, trace), ok)
    decreases |trace|
  {
    if trace != [] {
      StepKeepsRowsOk(svc, s, trace[0], ok);
      RowsStayOk(svc, Next(svc, s, trace[0]), trace[1..], ok);
    }
  }

  // ---- extending a run ----

  lemma {:induction false} ExecAppend<F, N, P>(
    svc: Service<F, N, P>, s: State<F, N, P>, trace: seq<Action<N, P>>, a: Action<N, P>)
    requires Legal(svc, s, trace) && Enabled(svc, Exec(svc, s, trace), a)
    ensures Legal(svc, s, trace + [a]) && Exec(svc, s, trace + [a]) == Next(svc, Exec(svc, s, trace), a)
    decreases |trace|
  {
    if trace == [] {
      assert [a][1..] == [];
    } else {
      ExecAppend(svc, Next(svc, s, trace[0]), trace[1..], a);
      assert (trace + [a])[1..] == trace[1..] + [a];
    }
  }

  /** The trace is a run from s0, and it ends in s. */
  ghost predicate IsRun<F(!new), N(!new), P(!new)>(svc: Service<F, N, P>, s0: State<F, N, P>, trace: seq<Action<N, P>>, s: State<F, N, P>) {
    forall from {:trigger Legal(svc, from, trace)} :: from == s0 ==> Legal(svc, from, trace) && s == Exec(svc, from, trace)
  }

  lemma EmptyRun<F(!new), N(!new), P(!new)>(svc: Service<F, N, P>, s: State<F, N, P>)
    ensures IsRun(svc, s, [], s)
  {
  }

  lemma RunAppend<F(!new), N(!new), P(!new)>(
    svc: Service<F, N, P>, s0: State<F, N, P>, trace: seq<Action<N, P>>, s: State<F, N, P>, a: Action<N, P>)
    requires IsRun(svc, s0, trace, s) && Enabled(svc, s, a)
    ensures IsRun(svc, s0, trace + [a], Next(svc, s, a))
  {
    assert Legal(svc, s0, trace);
    ExecAppend(svc, s0, trace, a);
  }

  lemma Extend<F(!new), N(!new), P(!new)>(
    svc: Service<F, N, P>, s0: State<F, N, P>, trace: seq<Action<N, P>>, s: State<F, N, P>, a: Action<N, P>)
    returns (trace': seq<Action<N, P>>, s': State<F, N, P>)
    requires IsRun(svc, s0, trace, s) && Enabled(svc, s, a)
    ensures trace' == trace + [a] && s' == Next(svc, s, a) && IsRun(svc, s0, trace', s')
  {
    RunAppend(svc, s0, trace, s, a);
    trace', s' := trace + [a], Next(svc, s, a);
  }

  // ---- why clients must not guess ----

  function OneRow<F, N, P>(now: Clock, row: Row<F>, txs: map<TxId, Tx<F, N, P>>, events: seq<Event<F, N, P>>): State<F, N, P> {
    State(now, map[0 := row], map[], txs, map[0 := events])
  }

  lemma InsertAlone<F(!new), N(!new), P(!new)>(svc: Service<F, N, P>, now: Clock, n: N)
    returns (trace: seq<Action<N, P>>, s: State<F, N, P>)
    ensures var row := Row(svc.make(n, now), 1, None);
      s == OneRow(now, row, map[], [Created(n, now, row)]) && IsRun(svc, Init(now), trace, s)
  {
    s := Init(now);
    trace := [];
    trace, s := Extend(svc, Init(now), trace, s, Insert(1, 0, n));
    trace, s := Extend(svc, Init(now), trace, s, Commit(1));
    var row := Row(svc.make(n, now), 1, None);
    assert s.rows == map[0 := row] && s.holders == map[] && s.txs == map[];
    assert s.audit[0] == [Created(n, now, row)];
    assert s.audit == map[0 := s.audit[0]];
  }

  /** Transaction tx runs to its successful UPDATE and commits, while the others wait between statements. */
  lemma UpdateAlone<F(!new), N(!new), P(!new)>(
    svc: Service<F, N, P>, s0: State<F, N, P>, trace0: seq<Action<N, P>>, s: State<F, N, P>, tx: TxId, q: P)
    returns (trace: seq<Action<N, P>>, s': State<F, N, P>)
    requires IsRun(svc, s0, trace0, s) && svc.accepts(q)
    requires tx !in s.txs && s.holders == map[] && s.rows.Keys == s.audit.Keys == {0} && s.rows[0].Live()
    ensures IsRun(svc, s0, trace, s')
    ensures var before := s.rows[0]; var after := Row(svc.apply(before.fields, q, s.now), before.version + 1, None);
      s' == OneRow(s.now, after, s.txs, s.audit[0] + [Updated(q, s.now, before, after)])
  {
    var before := s.rows[0];
    trace, s' := Extend(svc, s0, trace0, s, BeginUpdate(tx, 0, before.version, q));
    trace, s' := Extend(svc, s0, trace, s', Read(tx));
    assert s' == s.(txs := s.txs[tx := UpdateRead(0, before.version, q, before)]);
    trace, s' := Extend(svc, s0, trace, s', Compute(tx));
    var next := svc.apply(before.fields, q, s.now);
    assert s' == s.(txs := s.txs[tx := UpdateReady(0, before.version, q, before, s.now, next)]);
    trace, s' := WriteAlone(svc, s0, trace, s, s', tx);
  }

  lemma WriteAlone<F(!new), N(!new), P(!new)>(
    svc: Service<F, N, P>, s0: State<F, N, P>, trace0: seq<Action<N, P>>, s: State<F, N, P>, s1: State<F, N, P>, tx: TxId)
    returns (trace: seq<Action<N, P>>, s': State<F, N, P>)
    requires IsRun(svc, s0, trace0, s1)
    requires tx !in s.txs && s.holders == map[] && s.rows.Keys == s.audit.Keys == {0} && s.rows[0].Live()
    requires s1.txs.Keys == s.txs.Keys + {tx} && s1 == s.(txs := s.txs[tx := s1.txs[tx]])
    requires var t := s1.txs[tx]; t.UpdateReady? && t.id == 0 && t.version == s.rows[0].version && t.before == s.rows[0]
    ensures IsRun(svc, s0, trace, s')
    ensures var t := s1.txs[tx]; var after := Row(t.next, t.before.version + 1, None);
      s' == OneRow(s.now, after, s.txs, s.audit[0] + [Updated(t.patch, t.at, t.before, after)])
  {
    var t := s1.txs[tx];
    trace, s' := Extend(svc, s0, trace0, s1, Write(tx));
    trace, s' := Extend(svc, s0, trace, s', Commit(tx));
    var after := Row(t.next, t.before.version + 1, None);
    assert s'.txs == s.txs && s'.holders == map[];
    assert s'.rows == map[0 := after];
    assert s'.audit == map[0 := s.audit[0] + [Updated(t.patch, t.at, t.before, after)]];
  }

  /**
    The discipline is needed: a client that guesses version 2 while the row is at version 1 overwrites, with
    values merged from version 1, the update q that another client committed as version 2 in between.
  */
  lemma GuessedVersionLosesAnUpdate<F(!new), N(!new), P(!new)>(svc: Service<F, N, P>, now: Clock, n: N, p: P, q: P)
    returns (trace: seq<Action<N, P>>)
    requires svc.accepts(p) && svc.accepts(q)
    ensures Legal(svc, Init(now), trace)
    ensures var s := Exec(svc, Init(now), trace);
      && 0 in s.rows && s.rows[0] == Row(svc.apply(svc.make(n, now), p, now), 2, None)
      && |Events(s, 0)| == 3 && Events(s, 0)[1].Updated? && Events(s, 0)[1].patch == q
  {
    var s;
    trace, s := InsertAlone(svc, now, n);
    var before := s.rows[0];
    trace, s := Extend(svc, Init(now), trace, s, BeginUpdate(2, 0, 2, p));
    trace, s := Extend(svc, Init(now), trace, s, Read(2));
    assert s.txs == map[2 := UpdateRead(0, 2, p, before)];
    trace, s := UpdateAlone(svc, Init(now), trace, s, 3, q);
    trace, s := Extend(svc, Init(now), trace, s, Compute(2));
    trace, s := Extend(svc, Init(now), trace, s, Write(2));
    trace, s := Extend(svc, Init(now), trace, s, Commit(2));
    assert Legal(svc, Init(now), trace);
  }
}
