/**
  The statements of RowLocking as methods that update a table in place. The ghost field `trace` records
  the statements run so far, so every use of a Table is a run of the RowLocking machine.
*/
module RowTable {
  import opened Wrappers
  import opened Calendar
  import opened RowLocking

  datatype Reply<+T> = Done(value: T) | BadRequest | NotFound | Conflict

  class Table<F(!new), N(!new), P(!new)> {
    const svc: Service<F, N, P>
    var now: Clock
    var rows: map<Id, Row<F>>
    var holders: map<Id, TxId>
    var txs: map<TxId, Tx<F, N, P>>
    var audit: map<Id, seq<Event<F, N, P>>>
    ghost const origin: State<F, N, P>
    ghost var trace: seq<Action<N, P>>

    ghost function Snapshot(): State<F, N, P>
      reads this
    {
      State(now, rows, holders, txs, audit)
    }

    ghost predicate Valid()
      reads this
    {
      IsRun(svc, origin, trace, Snapshot())
    }

    constructor (svc: Service<F, N, P>, now: Clock)
      ensures Valid() && this.svc == svc && Snapshot() == origin == Init(now) && trace == []
    {
      this.svc, this.now := svc, now;
      rows, holders, txs, audit := map[], map[], map[], map[];
      origin, trace := Init(now), [];
      new;
      EmptyRun(svc, Init(now));
    }

    /** What every statement method below promises. */
    twostate predicate Performed(a: Action<N, P>)
      requires old(Valid()) && Enabled(svc, old(Snapshot()), a)
      reads this
    {
      && Valid() && trace == old(trace) + [a]
      && Snapshot() == Next(svc, old(Snapshot()), a)
    }

    ghost method Record(a: Action<N, P>, s: State<F, N, P>)
      requires IsRun(svc, origin, trace, s) && Enabled(svc, s, a) && Snapshot() == Next(svc, s, a)
      modifies this`trace
      ensures Valid() && trace == old(trace) + [a]
    {
      RunAppend(svc, origin, trace, s, a);
      trace := trace + [a];
    }

    /** The clock of the hosts moves on. */
    method Tick(to: Clock)
      requires Valid() && Enabled(svc, Snapshot(), Action<N, P>.Tick(to))
      modifies this
      ensures Performed(Action<N, P>.Tick(to))
    {
      ghost var s := Snapshot();
      now := to;
      Record(Action<N, P>.Tick(to), s);
    }

    /** BEGIN and INSERT ... RETURNING; on a unique violation the caller throws and the transaction ends. */
    method Insert(tx: TxId, id: Id, input: N) returns (after: Option<Row<F>>)
      requires Valid() && Enabled(svc, Snapshot(), Action<N, P>.Insert(tx, id, input))
      modifies this
      ensures Performed(Action<N, P>.Insert(tx, id, input))
      ensures after == if Duplicate(svc, old(Snapshot()), svc.make(input, now)) then None
                       else Some(Row(svc.make(input, now), 1, None))
    {
      ghost var s := Snapshot();
      var fields := svc.make(input, now);
      if exists i :: i in rows && svc.clash(rows[i].fields, fields) {
        after := None;
      } else {
        after := Some(Row(fields, 1, None));
        txs := txs[tx := Creating(id, input, now, after.value)];
        holders := holders[id := tx];
      }
      Record(Action<N, P>.Insert(tx, id, input), s);
    }

    method BeginUpdate(tx: TxId, id: Id, version: int, patch: P)
      requires Valid() && Enabled(svc, Snapshot(), Action<N, P>.BeginUpdate(tx, id, version, patch))
      modifies this
      ensures Performed(Action<N, P>.BeginUpdate(tx, id, version, patch))
    {
      ghost var s := Snapshot();
      txs := txs[tx := Updating(id, version, patch)];
      Record(Action<N, P>.BeginUpdate(tx, id, version, patch), s);
    }

    method BeginArchive(tx: TxId, id: Id)
      requires Valid() && Enabled(svc, Snapshot(), Action<N, P>.BeginArchive(tx, id))
      modifies this
      ensures Performed(Action<N, P>.BeginArchive(tx, id))
    {
      ghost var s := Snapshot();
      txs := txs[tx := Archiving(id, now)];
      Record(Action<N, P>.BeginArchive(tx, id), s);
    }

    /** SELECT ... WHERE id = ? AND deleted_at IS NULL; without a row the caller throws and the transaction ends. */
    method Read(tx: TxId) returns (before: Option<Row<F>>)
      requires Valid() && Enabled(svc, Snapshot(), Action<N, P>.Read(tx))
      modifies this
      ensures Performed(Action<N, P>.Read(tx))
      ensures before == LiveRow(old(Snapshot()), old(txs)[tx].id)
    {
      ghost var s := Snapshot();
      var t := txs[tx];
      if t.id in rows && rows[t.id].deletedAt.None? {
        before := Some(rows[t.id]);
        if t.Updating? {
          txs := txs[tx := UpdateRead(t.id, t.version, t.patch, rows[t.id])];
        } else {
          txs := txs[tx := ArchiveRead(t.id, t.at, rows[t.id])];
        }
      } else {
        before := None;
        txs := txs - {tx};
      }
      Record(Action<N, P>.Read(tx), s);
    }

    /** The new values, from what was read, the request and the clock. */
    method Compute(tx: TxId)
      requires Valid() && Enabled(svc, Snapshot(), Action<N, P>.Compute(tx))
      modifies this
      ensures Performed(Action<N, P>.Compute(tx))
    {
      ghost var s := Snapshot();
      var t := txs[tx];
      txs := txs[tx := UpdateReady(t.id, t.version, t.patch, t.before, now, svc.apply(t.before.fields, t.patch, now))];
      Record(Action<N, P>.Compute(tx), s);
    }

    /** UPDATE ... RETURNING; with no row updated the caller throws and the transaction ends. */
    method Write(tx: TxId) returns (after: Option<Row<F>>)
      requires Valid() && Enabled(svc, Snapshot(), Action<N, P>.Write(tx))
      modifies this
      ensures Performed(Action<N, P>.Write(tx))
      ensures after.Some? <==> Matches(old(Snapshot()), old(txs)[tx])
      ensures after.Some? ==> tx in txs && txs[tx].Holds() && after.value == txs[tx].after
    {
      ghost var s := Snapshot();
      var t := txs[tx];
      after := None;
      if t.id in rows && rows[t.id].deletedAt.None? {
        if t.ArchiveRead? {
          after := Some(rows[t.id].(deletedAt := Some(t.at)));
          txs := txs[tx := ArchiveWritten(t.id, t.at, t.before, after.value)];
        } else if rows[t.id].version == t.version {
          after := Some(Row(t.next, t.before.version + 1, None));
          txs := txs[tx := UpdateWritten(t.id, t.patch, t.before, t.at, after.value)];
        }
      }
      if after.Some? {
        holders := holders[t.id := tx];
      } else {
        txs := txs - {tx};
      }
      Record(Action<N, P>.Write(tx), s);
    }

    method Commit(tx: TxId)
      requires Valid() && Enabled(svc, Snapshot(), Action<N, P>.Commit(tx))
      modifies this
      ensures Performed(Action<N, P>.Commit(tx))
    {
      ghost var s := Snapshot();
      var t := txs[tx];
      rows := rows[t.id := t.after];
      audit := audit[t.id := (if t.id in audit then audit[t.id] else []) + [EventOf(t)]];
      holders := holders - {t.id};
      txs := txs - {tx};
      Record(Action<N, P>.Commit(tx), s);
    }

    method Rollback(tx: TxId)
      requires Valid() && Enabled(svc, Snapshot(), Action<N, P>.Rollback(tx))
      modifies this
      ensures Performed(Action<N, P>.Rollback(tx))
    {
      ghost var s := Snapshot();
      if txs[tx].Holds() {
        holders := holders - {txs[tx].id};
      }
      txs := txs - {tx};
      Record(Action<N, P>.Rollback(tx), s);
    }

    // ---- whole requests, run while no other transaction holds the row ----

    /** The body that DocumentsService.update and EmployeesService.update share, statement by statement. */
    method UpdateRequest(tx: TxId, id: Id, version: int, patch: P) returns (r: Reply<Row<F>>)
      requires Valid() && tx !in txs && id !in holders && svc.accepts(patch)
      modifies this
      ensures Valid() && old(trace) <= trace && now == old(now)
      ensures txs == old(txs) && holders == old(holders)
      ensures var found := LiveRow(old(Snapshot()), id);
        r == if found.None? then NotFound
             else if found.value.version != version then Conflict
             else Done(Row(svc.apply(found.value.fields, patch, now), version + 1, None))
      ensures !r.Done? ==> rows == old(rows) && audit == old(audit)
      ensures r.Done? ==>
        && rows == old(rows)[id := r.value]
        && audit == old(audit)[id := Events(old(Snapshot()), id) + [Updated(patch, now, old(rows)[id], r.value)]]
    {
      BeginUpdate(tx, id, version, patch);
      var before := Read(tx);
      if before.None? {
        return NotFound;
      }
      Compute(tx);
      assert txs == old(txs)[tx := UpdateReady(id, version, patch, before.value, now, svc.apply(before.value.fields, patch, now))];
      r := WriteRequest(tx);
      assert txs == old(txs);
    }

    /** The conditional UPDATE and the COMMIT of an update that has its new values. */
    method WriteRequest(tx: TxId) returns (r: Reply<Row<F>>)
      requires Valid() && tx in txs && txs[tx].UpdateReady? && txs[tx].id !in holders
      modifies this
      ensures Valid() && old(trace) <= trace && now == old(now)
      ensures txs == old(txs) - {tx} && holders == old(holders)
      ensures var t := old(txs)[tx];
        r == if Matches(old(Snapshot()), t) then Done(Row(t.next, t.before.version + 1, None)) else Conflict
      ensures !r.Done? ==> rows == old(rows) && audit == old(audit)
      ensures var t := old(txs)[tx]; r.Done? ==>
        && rows == old(rows)[t.id := r.value]
        && audit == old(audit)[t.id := Events(old(Snapshot()), t.id) + [Updated(t.patch, t.at, t.before, r.value)]]
    {
      var after := Write(tx);
      if after.None? {
        return Conflict;
      }
      Commit(tx);
      return Done(after.value);
    }

    /** The body that both archive methods share. */
    method ArchiveRequest(tx: TxId, id: Id) returns (r: Reply<Clock>)
      requires Valid() && tx !in txs && id !in holders
      modifies this
      ensures Valid() && old(trace) <= trace && now == old(now)
      ensures txs == old(txs) && holders == old(holders)
      ensures r == if LiveRow(old(Snapshot()), id).None? then NotFound else Done(now)
      ensures !r.Done? ==> rows == old(rows) && audit == old(audit)
      ensures r.Done? ==>
        var before := old(rows)[id]; var after := before.(deletedAt := Some(now));
        && rows == old(rows)[id := after]
        && audit == old(audit)[id := Events(old(Snapshot()), id) + [Archived(now, before, after)]]
    {
      BeginArchive(tx, id);
      var before := Read(tx);
      if before.None? {
        return NotFound;
      }
      assert txs == old(txs)[tx := ArchiveRead(id, now, before.value)];
      r := ArchiveWrite(tx);
      assert txs == old(txs);
    }

    /** The UPDATE and the COMMIT of an archive that has read its row. */
    method ArchiveWrite(tx: TxId) returns (r: Reply<Clock>)
      requires Valid() && tx in txs && txs[tx].ArchiveRead? && txs[tx].id !in holders
      modifies this
      ensures Valid() && old(trace) <= trace && now == old(now)
      ensures txs == old(txs) - {tx} && holders == old(holders)
      ensures var t := old(txs)[tx]; r == if Matches(old(Snapshot()), t) then Done(t.at) else NotFound
      ensures !r.Done? ==> rows == old(rows) && audit == old(audit)
      ensures r.Done? ==>
        var t := old(txs)[tx]; var after := old(rows)[t.id].(deletedAt := Some(t.at));
        && rows == old(rows)[t.id := after]
        && audit == old(audit)[t.id := Events(old(Snapshot()), t.id) + [Archived(t.at, t.before, after)]]
    {
      var after := Write(tx);
      if after.None? {
        return NotFound;
      }
      Commit(tx);
      return Done(after.value.deletedAt.value);
    }
  }
}
