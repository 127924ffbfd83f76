/** The migration runner: planning, the backfill loop outside a transaction, and one transaction per file. */
module Migrations {
  /** The file whose tables reveal a database older than the tracking table. */
  const MARKER_FILE := "002_schema.sql"

  /** tracked: rows of schema_migrations in insertion order; executed: the files whose SQL was committed, in order. */
  datatype Db = Db(tracked: seq<string>, executed: seq<string>, markerTable: bool)

  datatype Plan = Plan(backfill: seq<string>, toApply: seq<string>)

  predicate Distinct(files: seq<string>) {
    forall i, j :: 0 <= i < j < |files| ==> files[i] != files[j]
  }

  function Without(files: seq<string>, applied: set<string>): seq<string> {
    if files == [] then [] else
      Without(files[..|files| - 1], applied) + (if files[|files| - 1] in applied then [] else [files[|files| - 1]])
  }

  /** The files that are not applied yet, each as often and in the same order as on disk. */
  lemma {:induction false} WithoutKeepsOrder(files: seq<string>, applied: set<string>) returns (places: seq<nat>)
    ensures |places| == |Without(files, applied)|
    ensures forall i :: 0 <= i < |places| ==> places[i] < |files| && files[places[i]] == Without(files, applied)[i]
    ensures forall i, j :: 0 <= i < j < |places| ==> places[i] < places[j]
    ensures forall p :: 0 <= p < |files| ==> (p in places <==> files[p] !in applied)
  {
    places := [];
    if files != [] {
      var n := |files| - 1;
      places := WithoutKeepsOrder(files[..n], applied);
      if files[n] !in applied {
        places := places + [n];
      }
    }
  }

  function SetOf(files: seq<string>): set<string> {
    set f | f in files
  }

  function PlanOf(filesOnDisk: seq<string>, alreadyApplied: seq<string>, markerTableExists: bool): Plan {
    if alreadyApplied == [] && markerTableExists then Plan(filesOnDisk, [])
    else Plan([], Without(filesOnDisk, SetOf(alreadyApplied)))
  }

  lemma {:induction false} WithoutHolds(files: seq<string>, applied: set<string>)
    ensures forall f :: f in Without(files, applied) <==> f in files && f !in applied
  {
    if files != [] {
      WithoutHolds(files[..|files| - 1], applied);
      assert files == files[..|files| - 1] + [files[|files| - 1]];
    }
  }

  method PlanMigrations(filesOnDisk: seq<string>, alreadyApplied: seq<string>, markerTableExists: bool) returns (plan: Plan)
    ensures plan == PlanOf(filesOnDisk, alreadyApplied, markerTableExists)
    ensures alreadyApplied == [] && markerTableExists ==> plan.backfill == filesOnDisk && plan.toApply == []
    ensures !(alreadyApplied == [] && markerTableExists) ==>
      plan.backfill == [] && forall f :: f in plan.toApply <==> f in filesOnDisk && f !in alreadyApplied
  {
    var applied := SetOf(alreadyApplied);
    var backfill := [];
    if applied == {} && markerTableExists {
      backfill := filesOnDisk;
      for i := 0 to |backfill|
        invariant applied == SetOf(backfill[..i])
      {
        applied := applied + {backfill[i]};
        assert backfill[..i + 1] == backfill[..i] + [backfill[i]];
      }
      assert backfill[..|backfill|] == backfill;
      NothingLeft(filesOnDisk, applied);
    }
    assert alreadyApplied != [] ==> alreadyApplied[0] in SetOf(alreadyApplied);
    plan := Plan(backfill, Without(filesOnDisk, applied));
    WithoutHolds(filesOnDisk, applied);
  }

  lemma {:induction false} NothingLeft(files: seq<string>, applied: set<string>)
    requires SetOf(files) <= applied
    ensures Without(files, applied) == []
  {
    if files != [] {
      var front := files[..|files| - 1];
      assert forall f :: f in front ==> f in SetOf(files);
      assert files[|files| - 1] in SetOf(files);
      NothingLeft(front, applied);
    }
  }

  // ---- a run ----

  /** A run that got as far as k backfill inserts and j applied files. */
  datatype Progress = Progress(backfilled: nat, applied: nat)

  predicate Possible(db: Db, files: seq<string>, p: Progress) {
    var plan := PlanOf(files, db.tracked, db.markerTable);
    p.backfilled <= |plan.backfill| && p.applied <= |plan.toApply| && (p.applied > 0 ==> p.backfilled == |plan.backfill|)
  }

  predicate Finishes(db: Db, files: seq<string>, p: Progress) {
    var plan := PlanOf(files, db.tracked, db.markerTable);
    p.backfilled == |plan.backfill| && p.applied == |plan.toApply|
  }

  function After(db: Db, files: seq<string>, p: Progress): Db
    requires Possible(db, files, p)
  {
    var plan := PlanOf(files, db.tracked, db.markerTable);
    var applied := plan.toApply[..p.applied];
    Db(db.tracked + plan.backfill[..p.backfilled] + applied, db.executed + applied, db.markerTable || MARKER_FILE in applied)
  }

  /** Three statements to plan, one for each backfilled file, four for each applied one; and no file's SQL fails. */
  predicate Survives(plan: Plan, budget: nat, sqlFails: set<string>) {
    && budget >= 3 + |plan.backfill| + 4 * |plan.toApply|
    && forall i :: 0 <= i < |plan.toApply| ==> plan.toApply[i] !in sqlFails
  }

  class Migrator {
    var tracked: seq<string>
    var executed: seq<string>
    var markerTable: bool

    ghost function Snapshot(): Db
      reads this
    {
      Db(tracked, executed, markerTable)
    }

    constructor (db: Db)
      ensures Snapshot() == db
    {
      tracked, executed, markerTable := db.tracked, db.executed, db.markerTable;
    }

    /**
      One invocation of main. The process dies when `budget` statements have run, and the SQL of some files fails;
      a transaction that does not reach its COMMIT leaves nothing. The run finishes exactly if it lives long enough
      for every statement and no file fails, and then it has done all that was planned.
    */
    method Migrate(files: seq<string>, budget: nat, sqlFails: set<string>) returns (finished: bool, progress: Progress)
      requires Distinct(files)
      modifies this
      ensures Possible(old(Snapshot()), files, progress) && Snapshot() == After(old(Snapshot()), files, progress)
      ensures finished <==> Survives(PlanOf(files, old(tracked), old(markerTable)), budget, sqlFails)
      ensures finished ==> Finishes(old(Snapshot()), files, progress)
    {
      progress := Progress(0, 0);
      // CREATE TABLE IF NOT EXISTS, SELECT filename, to_regclass
      var plan := PlanMigrations(files, tracked, markerTable);
      finished := false;
      if budget < 3 {
        return;
      }
      var left := budget - 3;
      for i := 0 to |plan.backfill|
        invariant 0 <= left == budget - 3 - i && progress == Progress(i, 0)
        invariant tracked == old(tracked) + plan.backfill[..i] && executed == old(executed) && markerTable == old(markerTable)
      {
        if left == 0 {
          assert !Survives(plan, budget, sqlFails);
          return;
        }
        left := left - 1;
        tracked := tracked + [plan.backfill[i]];
        progress := Progress(i + 1, 0);
        assert plan.backfill[..i + 1] == plan.backfill[..i] + [plan.backfill[i]];
      }
      for i := 0 to |plan.toApply|
        invariant 0 <= left == budget - 3 - |plan.backfill| - 4 * i && progress == Progress(|plan.backfill|, i)
        invariant forall k :: 0 <= k < i ==> plan.toApply[k] !in sqlFails
        invariant tracked == old(tracked) + plan.backfill + plan.toApply[..i]
        invariant executed == old(executed) + plan.toApply[..i]
        invariant markerTable == (old(markerTable) || MARKER_FILE in plan.toApply[..i])
      {
        // BEGIN, the file's SQL, INSERT INTO schema_migrations, COMMIT
        if left < 4 || plan.toApply[i] in sqlFails {
          assert !Survives(plan, budget, sqlFails);
          return;
        }
        left := left - 4;
        executed := executed + [plan.toApply[i]];
        tracked := tracked + [plan.toApply[i]];
        markerTable := markerTable || plan.toApply[i] == MARKER_FILE;
        progress := Progress(|plan.backfill|, i + 1);
        assert plan.toApply[..i + 1] == plan.toApply[..i] + [plan.toApply[i]];
      }
      finished := true;
    }
  }

  // ---- any number of runs ----

  ghost predicate PossibleRuns(db: Db, files: seq<string>, runs: seq<Progress>)
    decreases |runs|
  {
    runs != [] ==> Possible(db, files, runs[0]) && PossibleRuns(After(db, files, runs[0]), files, runs[1..])
  }

  ghost function AfterRuns(db: Db, files: seq<string>, runs: seq<Progress>): Db
    requires PossibleRuns(db, files, runs)
    decreases |runs|
  {
    if runs == [] then db else AfterRuns(After(db, files, runs[0]), files, runs[1..])
  }

  /** The state the last run started from. */
  ghost function BeforeLast(db: Db, files: seq<string>, runs: seq<Progress>): Db
    requires PossibleRuns(db, files, runs) && runs != []
    decreases |runs|
  {
    if |runs| == 1 then db else BeforeLast(After(db, files, runs[0]), files, runs[1..])
  }

  ghost predicate LastFinishes(db: Db, files: seq<string>, runs: seq<Progress>)
    requires PossibleRuns(db, files, runs)
  {
    runs != [] && Finishes(BeforeLast(db, files, runs), files, runs[|runs| - 1])
  }

  /** The first m files are tracked, and those from k on were executed by this script, after `base`. */
  ghost predicate Upto(db: Db, files: seq<string>, base: seq<string>, k: nat, m: nat) {
    && k <= m <= |files|
    && db.tracked == files[..m] && db.executed == base + files[k..m]
    && (m == 0 ==> !db.markerTable)
  }

  lemma {:induction false} WithoutPrefix(files: seq<string>, m: nat)
    requires Distinct(files) && m <= |files|
    ensures Without(files, SetOf(files[..m])) == files[m..]
  {
    if files != [] {
      var n := |files| - 1;
      if m <= n {
        WithoutPrefix(files[..n], m);
        assert files[..n][..m] == files[..m] && files[..n][m..] + [files[n]] == files[m..];
        assert files[n] !in SetOf(files[..m]);
      } else {
        assert files[..m] == files;
        NothingLeft(files, SetOf(files));
      }
    }
  }

  lemma PlanOfUpto(db: Db, files: seq<string>, base: seq<string>, k: nat, m: nat)
    requires Distinct(files) && Upto(db, files, base, k, m)
    ensures PlanOf(files, db.tracked, db.markerTable) == Plan([], files[m..])
  {
    assert m > 0 ==> |files[..m]| > 0;
    WithoutPrefix(files, m);
  }

  lemma SlicesJoin(files: seq<string>, k: nat, m: nat, n: nat)
    requires k <= m <= n <= |files|
    ensures files[m..][..n - m] == files[m..n]
    ensures files[..m] + files[m..n] == files[..n] && files[k..m] + files[m..n] == files[k..n]
  {
  }

  lemma StepAdvances(db: Db, files: seq<string>, base: seq<string>, k: nat, m: nat, p: Progress)
    requires Distinct(files) && Upto(db, files, base, k, m) && Possible(db, files, p)
    ensures m + p.applied <= |files| && Upto(After(db, files, p), files, base, k, m + p.applied)
    ensures Finishes(db, files, p) <==> m + p.applied == |files|
  {
    PlanOfUpto(db, files, base, k, m);
    var n := m + p.applied;
    SlicesJoin(files, k, m, n);
    var db' := After(db, files, p);
    assert db'.tracked == files[..m] + [] + files[m..n] && db'.executed == base + files[k..m] + files[m..n];
    assert base + files[k..m] + files[m..n] == base + (files[k..m] + files[m..n]);
    assert n == 0 ==> files[m..n] == [];
  }

  lemma {:induction false} RunsAdvance(db: Db, files: seq<string>, base: seq<string>, k: nat, m: nat, runs: seq<Progress>)
    returns (n: nat)
    requires Distinct(files) && Upto(db, files, base, k, m) && PossibleRuns(db, files, runs)
    ensures m <= n && Upto(AfterRuns(db, files, runs), files, base, k, n)
    ensures LastFinishes(db, files, runs) ==> n == |files|
    decreases |runs|
  {
    n := m;
    if runs != [] {
      StepAdvances(db, files, base, k, m, runs[0]);
      n := RunsAdvance(After(db, files, runs[0]), files, base, k, m + runs[0].applied, runs[1..]);
      if |runs| == 1 {
        assert runs[1..] == [];
      }
    }
  }

  /**
    From a fresh database, after any sequence of runs that each stop anywhere: the executed files are a prefix of
    the list, in order and without repetition, and are exactly the tracked ones. A run that finishes has applied
    them all, and one more run would do nothing.
  */
  lemma FreshRunsAreExactlyOnce(files: seq<string>, runs: seq<Progress>)
    requires Distinct(files) && PossibleRuns(Db([], [], false), files, runs)
    ensures var db := AfterRuns(Db([], [], false), files, runs);
      && db.executed == db.tracked && db.executed <= files && Distinct(db.executed)
      && (LastFinishes(Db([], [], false), files, runs) ==>
            db.executed == files && PlanOf(files, db.tracked, db.markerTable) == Plan([], []))
  {
    var n := RunsAdvance(Db([], [], false), files, [], 0, 0, runs);
    var db := AfterRuns(Db([], [], false), files, runs);
    assert files[0..n] == files[..n] && [] + files[..n] == files[..n];
    if n == |files| {
      assert files[..n] == files;
      NothingLeft(files, SetOf(files));
    }
  }

  // ---- databases older than the tracking table ----

  /** No run stopped inside its backfill loop. */
  ghost predicate BackfillsWhole(db: Db, files: seq<string>, runs: seq<Progress>)
    requires PossibleRuns(db, files, runs)
    decreases |runs|
  {
    runs != [] ==>
      && (runs[0].backfilled == 0 || runs[0].backfilled == |PlanOf(files, db.tracked, db.markerTable).backfill|)
      && BackfillsWhole(After(db, files, runs[0]), files, runs[1..])
  }

  /** Once something is tracked there is nothing to backfill. */
  lemma {:induction false} TrackedRunsBackfillNothing(db: Db, files: seq<string>, runs: seq<Progress>)
    requires db.tracked != [] && PossibleRuns(db, files, runs)
    ensures BackfillsWhole(db, files, runs)
    decreases |runs|
  {
    if runs != [] {
      TrackedRunsBackfillNothing(After(db, files, runs[0]), files, runs[1..]);
    }
  }

  /** How many files the first run that tracked any file backfilled. */
  function FirstBackfill(runs: seq<Progress>): nat {
    if runs == [] then 0 else if runs[0].backfilled > 0 then runs[0].backfilled else FirstBackfill(runs[1..])
  }

  /**
    A database older than the tracking table has executed the first k files on disk, and tracks none. Whatever the
    runs and wherever they stop, once one has finished the executed files are these k and then those from the first
    backfill on: files between the first backfill and k are executed a second time, and files between k and the first
    backfill never. So each file is executed exactly once if and only if the first backfill stopped after exactly k
    files; a backfill that is not interrupted tracks all files on disk, the new ones included.
  */
  lemma {:induction false} PreexistingIsSafeIff(files: seq<string>, k: nat, runs: seq<Progress>)
    requires Distinct(files) && 0 < k <= |files|
    requires PossibleRuns(Db([], files[..k], true), files, runs) && LastFinishes(Db([], files[..k], true), files, runs)
    ensures 0 < FirstBackfill(runs) <= |files|
    ensures var executed := AfterRuns(Db([], files[..k], true), files, runs).executed;
      && executed == files[..k] + files[FirstBackfill(runs)..]
      && (executed == files <==> FirstBackfill(runs) == k)
    decreases |runs|
  {
    var db0, p := Db([], files[..k], true), runs[0];
    var db1 := After(db0, files, p);
    var b := p.backfilled;
    assert p.applied == 0 && db1 == Db(files[..b], files[..k], true);
    if b == 0 {
      assert db1 == db0 && |runs| > 1;
      PreexistingIsSafeIff(files, k, runs[1..]);
    } else {
      assert files[..k] + files[b..b] == files[..k];
      var n := RunsAdvance(db1, files, files[..k], b, b, runs[1..]);
      assert runs[1..] == [] ==> b == |files|;
      assert n == |files| && files[b..n] == files[b..];
      EachOnceIff(files, k, b);
    }
  }

  lemma EachOnceIff(files: seq<string>, k: nat, b: nat)
    requires k <= |files| && b <= |files|
    ensures files[..k] + files[b..] == files <==> b == k
  {
    assert |files[..k] + files[b..]| == k + |files| - b;
  }

  /** With every file on disk already executed, that condition is that no run stopped inside the backfill loop. */
  lemma WholeDatabaseIsSafeIff(files: seq<string>, runs: seq<Progress>)
    requires Distinct(files) && files != [] && PossibleRuns(Db([], files, true), files, runs)
    requires LastFinishes(Db([], files, true), files, runs)
    ensures AfterRuns(Db([], files, true), files, runs).executed == files <==> BackfillsWhole(Db([], files, true), files, runs)
  {
    assert files[..|files|] == files;
    PreexistingIsSafeIff(files, |files|, runs);
    FirstBackfillIsWhole(files, runs);
  }

  lemma {:induction false} FirstBackfillIsWhole(files: seq<string>, runs: seq<Progress>)
    requires files != [] && PossibleRuns(Db([], files, true), files, runs) && FirstBackfill(runs) > 0
    ensures FirstBackfill(runs) == |files| <==> BackfillsWhole(Db([], files, true), files, runs)
    decreases |runs|
  {
    var db0 := Db([], files, true);
    var db1 := After(db0, files, runs[0]);
    if runs[0].backfilled == 0 {
      assert db1 == db0;
      FirstBackfillIsWhole(files, runs[1..]);
    } else {
      TrackedRunsBackfillNothing(db1, files, runs[1..]);
    }
  }

  /** A database from before the tracking table, and a new file on disk: one run, not interrupted, and it is never executed. */
  lemma NewestFileIsSkipped(oldFile: string, newFile: string)
    requires oldFile != newFile
    ensures var files := [oldFile, newFile]; var db := Db([], [oldFile], true); var run := Progress(2, 0);
      && PossibleRuns(db, files, [run]) && LastFinishes(db, files, [run]) && BackfillsWhole(db, files, [run])
      && AfterRuns(db, files, [run]).executed == [oldFile] && AfterRuns(db, files, [run]).tracked == files
  {
    var files, db, run := [oldFile, newFile], Db([], [oldFile], true), Progress(2, 0);
    assert [run][1..] == [] && files[..2] == files;
    assert After(db, files, run) == Db(files, [oldFile], true);
  }
}
