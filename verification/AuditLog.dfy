/**
  AuditService.log inside a caller's transaction: SAVEPOINT, INSERT, RELEASE, and ROLLBACK TO on any error.

  A transaction is a stack machine: a failed statement aborts it, an aborted transaction accepts only
  ROLLBACK TO an existing savepoint (or the end), and savepoints of one name shadow each other.
*/
module AuditLog {
  import opened Wrappers

  const AUDIT_WRITE := "audit_write"

  datatype Savepoint<B, A> = Mark(name: string, business: seq<B>, audit: seq<A>)

  /** Business rows and audit rows written so far, and the savepoint stack. */
  datatype Tx<B, A> = Tx(business: seq<B>, audit: seq<A>, savepoints: seq<Savepoint<B, A>>, aborted: bool)

  function EmptyTx<B, A>(): Tx<B, A> {
    Tx([], [], [], false)
  }

  /** Which of the statements of one call fail. */
  datatype Faults = Faults(savepoint: bool, insert: bool, release: bool, rollback: bool)

  const NO_FAULT := Faults(false, false, false, false)

  /** The position of the most recent savepoint of a name; -1 if there is none. */
  function LastIndex<B, A>(stack: seq<Savepoint<B, A>>, name: string): (k: int)
    ensures -1 <= k < |stack|
    ensures k >= 0 ==> stack[k].name == name
    ensures forall i :: k < i < |stack| ==> stack[i].name != name
  {
    if stack == [] then -1
    else if stack[|stack| - 1].name == name then |stack| - 1
    else LastIndex(stack[..|stack| - 1], name)
  }

  // ---- statements ----

  function Abort<B, A>(t: Tx<B, A>): Tx<B, A> {
    t.(aborted := true)
  }

  function AfterSavepoint<B, A>(t: Tx<B, A>, name: string, fails: bool): Tx<B, A> {
    if t.aborted || fails then Abort(t) else t.(savepoints := t.savepoints + [Mark(name, t.business, t.audit)])
  }

  function AfterWrite<B, A>(t: Tx<B, A>, row: B): Tx<B, A> {
    if t.aborted then t else t.(business := t.business + [row])
  }

  function AfterInsert<B, A>(t: Tx<B, A>, row: A, fails: bool): Tx<B, A> {
    if t.aborted || fails then Abort(t) else t.(audit := t.audit + [row])
  }

  function AfterRelease<B, A>(t: Tx<B, A>, name: string, fails: bool): Tx<B, A> {
    var k := LastIndex(t.savepoints, name);
    if t.aborted || fails || k < 0 then Abort(t) else t.(savepoints := t.savepoints[..k])
  }

  /** Undoes everything since the savepoint and keeps the savepoint itself. */
  function AfterRollbackTo<B, A>(t: Tx<B, A>, name: string, fails: bool): Tx<B, A> {
    var k := LastIndex(t.savepoints, name);
    if fails || k < 0 then Abort(t)
    else Tx(t.savepoints[k].business, t.savepoints[k].audit, t.savepoints[..k + 1], false)
  }

  /** What one call leaves behind, stated by its faults; in an aborted transaction SAVEPOINT fails by itself. */
  function AfterLog<B, A>(t: Tx<B, A>, row: A, f: Faults): Tx<B, A> {
    if t.aborted || f.savepoint then AfterRollbackTo(Abort(t), AUDIT_WRITE, f.rollback)
    else if !f.insert && !f.release then t.(audit := t.audit + [row])
    else if f.rollback then
      Abort(AfterSavepoint(t, AUDIT_WRITE, false)).(audit := if f.insert then t.audit else t.audit + [row])
    else AfterSavepoint(t, AUDIT_WRITE, false)
  }

  // ---- the service ----

  /** One open transaction of a caller. */
  class Transaction<B, A> {
    var business: seq<B>
    var audit: seq<A>
    var savepoints: seq<Savepoint<B, A>>
    var aborted: bool

    ghost function Snapshot(): Tx<B, A>
      reads this
    {
      Tx(business, audit, savepoints, aborted)
    }

    constructor ()
      ensures Snapshot() == Tx([], [], [], false)
    {
      business, audit, savepoints, aborted := [], [], [], false;
    }

    /** A statement of the caller. */
    method Write(row: B)
      modifies this
      ensures Snapshot() == AfterWrite(old(Snapshot()), row)
    {
      if !aborted {
        business := business + [row];
      }
    }

    method Savepoint(name: string, fails: bool) returns (ok: bool)
      modifies this
      ensures Snapshot() == AfterSavepoint(old(Snapshot()), name, fails) && ok == !aborted
    {
      if aborted || fails {
        aborted := true;
      } else {
        savepoints := savepoints + [Mark(name, business, audit)];
      }
      ok := !aborted;
    }

    method InsertAudit(row: A, fails: bool) returns (ok: bool)
      modifies this
      ensures Snapshot() == AfterInsert(old(Snapshot()), row, fails) && ok == !aborted
    {
      if aborted || fails {
        aborted := true;
      } else {
        audit := audit + [row];
      }
      ok := !aborted;
    }

    method Release(name: string, fails: bool) returns (ok: bool)
      modifies this
      ensures Snapshot() == AfterRelease(old(Snapshot()), name, fails) && ok == !aborted
    {
      var k := LastIndex(savepoints, name);
      if aborted || fails || k < 0 {
        aborted := true;
      } else {
        savepoints := savepoints[..k];
      }
      ok := !aborted;
    }

    method RollbackTo(name: string, fails: bool) returns (ok: bool)
      modifies this
      ensures Snapshot() == AfterRollbackTo(old(Snapshot()), name, fails) && ok == !aborted
    {
      var k := LastIndex(savepoints, name);
      if fails || k < 0 {
        aborted := true;
      } else {
        business, audit := savepoints[k].business, savepoints[k].audit;
        savepoints, aborted := savepoints[..k + 1], false;
      }
      ok := !aborted;
    }

    /** AuditService.log: never throws; whatever failed, it tries to return to its savepoint. */
    method Log(row: A, f: Faults)
      modifies this
      ensures Snapshot() == AfterLog(old(Snapshot()), row, f)
    {
      var ok := Savepoint(AUDIT_WRITE, f.savepoint);
      if ok {
        ok := InsertAudit(row, f.insert);
      }
      if ok {
        ok := Release(AUDIT_WRITE, f.release);
      }
      if !ok {
        ok := RollbackTo(AUDIT_WRITE, f.rollback);
      }
    }
  }

  // ---- containment ----

  /** A step of a caller: a business write, or an audit call with the statements of it that fail. */
  datatype Step<B, A> = Business(row: B) | Audit(entry: A, faults: Faults)

  function After<B, A>(t: Tx<B, A>, step: Step<B, A>): Tx<B, A> {
    match step
    case Business(row) => AfterWrite(t, row)
    case Audit(entry, faults) => AfterLog(t, entry, faults)
  }

  function AfterAll<B, A>(t: Tx<B, A>, steps: seq<Step<B, A>>): Tx<B, A>
    decreases |steps|
  {
    if steps == [] then t else AfterAll(After(t, steps[0]), steps[1..])
  }

  function Written<B, A>(steps: seq<Step<B, A>>): seq<B> {
    if steps == [] then [] else (if steps[0].Business? then [steps[0].row] else []) + Written(steps[1..])
  }

  /** INSERT or RELEASE fails. */
  predicate WriteFails(f: Faults) {
    f.insert || f.release
  }

  /** The audit rows whose INSERT and RELEASE both succeeded. */
  function Recorded<B, A>(steps: seq<Step<B, A>>): seq<A> {
    if steps == [] then [] else
      (if steps[0].Audit? && !WriteFails(steps[0].faults) then [steps[0].entry] else []) + Recorded(steps[1..])
  }

  /** Calls that failed and left their savepoint behind. */
  function Leftovers<B, A>(steps: seq<Step<B, A>>): nat {
    if steps == [] then 0 else (if steps[0].Audit? && WriteFails(steps[0].faults) then 1 else 0) + Leftovers(steps[1..])
  }

  predicate SavepointsWork<B, A>(steps: seq<Step<B, A>>) {
    forall i :: 0 <= i < |steps| && steps[i].Audit? ==> !steps[i].faults.savepoint && !steps[i].faults.rollback
  }

  /** One step: its own row is added or nothing is, and at most a savepoint stays behind. */
  lemma StepIsContained<B, A>(t: Tx<B, A>, step: Step<B, A>)
    requires !t.aborted && SavepointsWork([step])
    ensures var t' := After(t, step);
      && !t'.aborted
      && t'.business == t.business + Written([step])
      && t'.audit == t.audit + Recorded([step])
      && t.savepoints <= t'.savepoints && |t'.savepoints| == |t.savepoints| + Leftovers([step])
  {
    assert [step][0] == step && [step][1..] == [];
  }

  lemma TotalsSplit<B, A>(steps: seq<Step<B, A>>)
    requires steps != []
    ensures Written(steps) == Written([steps[0]]) + Written(steps[1..])
    ensures Recorded(steps) == Recorded([steps[0]]) + Recorded(steps[1..])
    ensures Leftovers(steps) == Leftovers([steps[0]]) + Leftovers(steps[1..])
  {
    assert [steps[0]][1..] == [];
  }

  /**
    However many audit calls fail in a transaction, and however many savepoints of the same name they leave on
    the stack, the transaction can commit, has every business write, and has exactly the audit rows whose INSERT
    and RELEASE succeeded, as long as SAVEPOINT and ROLLBACK TO themselves work.
  */
  lemma {:induction false} FailuresAreContained<B, A>(t: Tx<B, A>, steps: seq<Step<B, A>>)
    requires !t.aborted && SavepointsWork(steps)
    ensures var t' := AfterAll(t, steps);
      && !t'.aborted
      && t'.business == t.business + Written(steps)
      && t'.audit == t.audit + Recorded(steps)
      && t.savepoints <= t'.savepoints && |t'.savepoints| == |t.savepoints| + Leftovers(steps)
    decreases |steps|
  {
    if steps != [] {
      var t1 := After(t, steps[0]);
      StepIsContained(t, steps[0]);
      TotalsSplit(steps);
      FailuresAreContained(t1, steps[1..]);
    }
  }

  // ---- every statement of every call may fail ----

  /**
    Whether a transaction keeps its business writes, told from its steps alone. `since` counts the business rows
    written since the nearest savepoint that a failed call left behind, if there is one; `broken` says that the
    transaction is aborted just now. A business write must find it sound. A call that cannot set its savepoint
    depends on its rollback, which reaches the nearest leftover: it mends a broken transaction, and loses what
    was written since.
  */
  predicate Good<B, A>(steps: seq<Step<B, A>>, since: Option<nat>, broken: bool)
    decreases |steps|
  {
    if steps == [] then !broken else
      var rest := steps[1..];
      match steps[0]
      case Business(_) => !broken && Good(rest, if since.Some? then Some(since.value + 1) else None, false)
      case Audit(_, f) =>
        if broken || f.savepoint then
          if f.rollback || since.None? then Good(rest, since, true)
          else since.value == 0 && Good(rest, since, false)
        else if WriteFails(f) then Good(rest, Some(0), f.rollback)
        else Good(rest, since, false)
  }

  /** Each savepoint remembers a prefix of what came later. */
  ghost predicate Nested<B, A>(t: Tx<B, A>) {
    && (forall i :: 0 <= i < |t.savepoints| ==> t.savepoints[i].business <= t.business)
    && (forall i, j :: 0 <= i < j < |t.savepoints| ==> t.savepoints[i].business <= t.savepoints[j].business)
  }

  /** The business rows since the nearest leftover of the audit savepoint. */
  ghost function Since<B, A>(t: Tx<B, A>): Option<nat>
    requires Nested(t)
  {
    var k := LastIndex(t.savepoints, AUDIT_WRITE);
    if k < 0 then None else Some(|t.business| - |t.savepoints[k].business|)
  }

  lemma StaysNested<B, A>(t: Tx<B, A>, step: Step<B, A>)
    requires Nested(t)
    ensures Nested(After(t, step)) && |After(t, step).business| <= |t.business| + |Written([step])|
  {
    assert [step][0] == step && [step][1..] == [];
    if step.Audit? {
      LogStaysNested(t, step.entry, step.faults);
    }
  }

  lemma LogStaysNested<B, A>(t: Tx<B, A>, entry: A, f: Faults)
    requires Nested(t)
    ensures Nested(AfterLog(t, entry, f)) && |AfterLog(t, entry, f).business| <= |t.business|
  {
  }

  /** Rows that are lost stay lost. */
  lemma {:induction false} RowsAreBounded<B, A>(t: Tx<B, A>, steps: seq<Step<B, A>>)
    requires Nested(t)
    ensures |AfterAll(t, steps).business| <= |t.business| + |Written(steps)|
    decreases |steps|
  {
    if steps != [] {
      StaysNested(t, steps[0]);
      TotalsSplit(steps);
      RowsAreBounded(After(t, steps[0]), steps[1..]);
    }
  }

  ghost predicate Contained<B, A>(t: Tx<B, A>, t': Tx<B, A>, rows: seq<B>) {
    !t'.aborted && t'.business == t.business + rows
  }

  /** A call whose rollback finds a leftover goes back to it. */
  lemma RollbackSince<B, A>(t: Tx<B, A>, entry: A, f: Faults)
    requires Nested(t) && (t.aborted || f.savepoint) && !f.rollback && Since(t).Some?
    ensures var t1 := AfterLog(t, entry, f); var lost := Since(t).value;
      && Nested(t1) && Since(t1) == Some(0) && !t1.aborted
      && |t1.business| == |t.business| - lost && (lost == 0 ==> t1.business == t.business)
  {
    var k := LastIndex(t.savepoints, AUDIT_WRITE);
    var t1 := AfterRollbackTo(Abort(t), AUDIT_WRITE, false);
    assert t1.savepoints == t.savepoints[..k + 1] && t1.savepoints[k] == t.savepoints[k];
    assert t.savepoints[k].business <= t.business;
  }

  /** Every other call keeps the business rows. */
  lemma OtherCallsSince<B, A>(t: Tx<B, A>, entry: A, f: Faults)
    requires Nested(t) && ((t.aborted || f.savepoint) && !f.rollback ==> Since(t).None?)
    ensures var t1 := AfterLog(t, entry, f);
      && Nested(t1) && t1.business == t.business
      && t1.aborted == (t.aborted || f.savepoint || (WriteFails(f) && f.rollback))
      && Since(t1) == if !t.aborted && !f.savepoint && WriteFails(f) then Some(0) else Since(t)
  {
  }

  lemma StepShortens<B, A>(t: Tx<B, A>, t': Tx<B, A>, t1: Tx<B, A>, steps: seq<Step<B, A>>)
    requires Nested(t1) && t' == AfterAll(t1, steps) && |t1.business| < |t.business|
    ensures !Contained(t, t', Written(steps))
  {
    RowsAreBounded(t1, steps);
  }

  /**
    For every transaction and every pattern of failing statements: it can commit with all its business writes if
    and only if its steps are good.
  */
  lemma {:induction false} ContainedIffGood<B, A>(t: Tx<B, A>, steps: seq<Step<B, A>>)
    requires Nested(t)
    ensures Contained(t, AfterAll(t, steps), Written(steps)) <==> Good(steps, Since(t), t.aborted)
    decreases |steps|
  {
    if steps != [] {
      StaysNested(t, steps[0]);
      ContainedIffGood(After(t, steps[0]), steps[1..]);
      if steps[0].Business? {
        BusinessIffGood(t, steps);
      } else {
        AuditIffGood(t, steps);
      }
    }
  }

  /** The rest of the steps decides, from the state after the first one. */
  ghost predicate RestDecides<B, A>(t1: Tx<B, A>, rest: seq<Step<B, A>>) {
    Nested(t1) && (Contained(t1, AfterAll(t1, rest), Written(rest)) <==> Good(rest, Since(t1), t1.aborted))
  }

  lemma BusinessIffGood<B, A>(t: Tx<B, A>, steps: seq<Step<B, A>>)
    requires Nested(t) && steps != [] && steps[0].Business? && RestDecides(After(t, steps[0]), steps[1..])
    ensures Contained(t, AfterAll(t, steps), Written(steps)) <==> Good(steps, Since(t), t.aborted)
  {
    var row, rest := steps[0].row, steps[1..];
    var w := Written(rest);
    assert Written(steps) == [row] + w;
    if t.aborted {
      RowsAreBounded(t, rest);
      assert |t.business + ([row] + w)| == |t.business| + 1 + |w|;
    } else {
      WriteSince(t, row);
      SeqAssociates(t.business, [row], w);
    }
  }

  lemma SeqAssociates<B>(a: seq<B>, b: seq<B>, c: seq<B>)
    ensures a + (b + c) == a + b + c
  {
  }

  lemma AuditIffGood<B, A>(t: Tx<B, A>, steps: seq<Step<B, A>>)
    requires Nested(t) && steps != [] && steps[0].Audit? && RestDecides(After(t, steps[0]), steps[1..])
    ensures Contained(t, AfterAll(t, steps), Written(steps)) <==> Good(steps, Since(t), t.aborted)
  {
    var t1, rest := After(t, steps[0]), steps[1..];
    var f := steps[0].faults;
    if (t.aborted || f.savepoint) && !f.rollback && Since(t).Some? {
      RollbackSince(t, steps[0].entry, f);
    } else {
      OtherCallsSince(t, steps[0].entry, f);
    }
    assert Written(steps) == Written(rest);
    if |t1.business| < |t.business| {
      StepShortens(t, AfterAll(t1, rest), t1, rest);
    }
  }

  lemma WriteSince<B, A>(t: Tx<B, A>, row: B)
    requires Nested(t) && !t.aborted
    ensures var t1 := AfterWrite(t, row);
      Nested(t1) && !t1.aborted && Since(t1) == if Since(t).Some? then Some(Since(t).value + 1) else None
  {
    StaysNested(t, Business(row));
  }

  /** A failed SAVEPOINT after a failed audit call undoes the business write between them, and the commit goes through. */
  lemma FailedSavepointCanLoseAWrite<B, A>(b: B, a: A)
    ensures var t := AfterAll(EmptyTx<B, A>(), LosingSteps(b, a)); !t.aborted && t.business == []
  {
    var t1 := AfterWrite(AfterLog(EmptyTx<B, A>(), a, NO_FAULT.(insert := true)), b);
    assert t1.savepoints == [Mark(AUDIT_WRITE, [], [])];
    assert LastIndex(t1.savepoints, AUDIT_WRITE) == 0;
    var steps := LosingSteps(b, a);
    var rest := steps[1..];
    assert rest[1..] == [steps[2]] && [steps[2]][1..] == [];
    assert AfterAll(EmptyTx<B, A>(), steps) == AfterAll(t1, rest[1..]);
    assert AfterAll(t1, [steps[2]]) == After(t1, steps[2]);
  }

  function LosingSteps<B, A>(b: B, a: A): seq<Step<B, A>> {
    [Audit(a, NO_FAULT.(insert := true)), Business(b), Audit(a, NO_FAULT.(savepoint := true))]
  }
}
