/**
  Uploads of import files, interleaved: the search for a batch of the same tenant and file hash, the unique insert
  of the batch row in its own transaction, and the row loop.
*/
module Uploads {
  import ImportExport
  import Employees
  import RowTable

  type UploadId = nat
  type FileKey = ImportExport.FileKey

  /** A committed row of import_batches, and the upload that inserted it. */
  datatype BatchRow = BatchRow(key: FileKey, uploader: UploadId)

  datatype Pc = Searching | Parsing | Inserting | Inserted | Looping | Finished | Replayed | Rejected | Dead

  datatype Upload = Upload(key: FileKey, pc: Pc)

  /** rowWrites counts the turns of each upload's row loop. */
  datatype World = World(
    batches: seq<BatchRow>, holders: map<FileKey, UploadId>, uploads: map<UploadId, Upload>, rowWrites: multiset<UploadId>)

  const EMPTY := World([], map[], map[], multiset{})

  datatype Action =
    | Begin(u: UploadId, key: FileKey)
    | Find(u: UploadId)
    | Parse(u: UploadId, ok: bool)
    | Insert(u: UploadId)
    | Commit(u: UploadId)
    | ProcessRow(u: UploadId)
    | Finish(u: UploadId)
    | Crash(u: UploadId)

  predicate Known(w: World, key: FileKey) {
    exists i :: 0 <= i < |w.batches| && w.batches[i].key == key
  }

  predicate IsAt(w: World, u: UploadId, pc: Pc) {
    u in w.uploads && w.uploads[u].pc == pc
  }

  /** The unique insert waits for an uncommitted batch row of the same key. */
  predicate Enabled(w: World, a: Action) {
    match a
    case Begin(u, _) => u !in w.uploads
    case Find(u) => IsAt(w, u, Searching)
    case Parse(u, _) => IsAt(w, u, Parsing)
    case Insert(u) => IsAt(w, u, Inserting) && w.uploads[u].key !in w.holders
    case Commit(u) => IsAt(w, u, Inserted)
    case ProcessRow(u) => IsAt(w, u, Looping)
    case Finish(u) => IsAt(w, u, Looping)
    case Crash(u) => u in w.uploads
  }

  function Goto(w: World, u: UploadId, pc: Pc): World
    requires u in w.uploads
  {
    w.(uploads := w.uploads[u := w.uploads[u].(pc := pc)])
  }

  function Next(w: World, a: Action): World
    requires Enabled(w, a)
  {
    match a
    case Begin(u, key) => w.(uploads := w.uploads[u := Upload(key, Searching)])
    case Find(u) => Goto(w, u, if Known(w, w.uploads[u].key) then Replayed else Parsing)
    case Parse(u, ok) => Goto(w, u, if ok then Inserting else Rejected)
    case Insert(u) =>
      if Known(w, w.uploads[u].key) then Goto(w, u, Rejected)
      else Goto(w, u, Inserted).(holders := w.holders[w.uploads[u].key := u])
    case Commit(u) =>
      Goto(w, u, Looping).(batches := w.batches + [BatchRow(w.uploads[u].key, u)], holders := w.holders - {w.uploads[u].key})
    case ProcessRow(u) => w.(rowWrites := w.rowWrites + multiset{u})
    case Finish(u) => Goto(w, u, Finished)
    case Crash(u) =>
      Goto(w, u, Dead).(holders := if w.uploads[u].pc == Inserted then w.holders - {w.uploads[u].key} else w.holders)
  }

  ghost predicate Legal(w: World, trace: seq<Action>)
    decreases |trace|
  {
    trace != [] ==> Enabled(w, trace[0]) && Legal(Next(w, trace[0]), trace[1..])
  }

  ghost function Exec(w: World, trace: seq<Action>): World
    requires Legal(w, trace)
    decreases |trace|
  {
    if trace == [] then w else Exec(Next(w, trace[0]), trace[1..])
  }

  // ---- invariant ----

  ghost predicate Entered(w: World, u: UploadId) {
    exists i :: 0 <= i < |w.batches| && w.batches[i].uploader == u
  }

  ghost predicate UploadOk(w: World, u: UploadId)
    requires u in w.uploads
  {
    var key, pc := w.uploads[u].key, w.uploads[u].pc;
    && (pc == Inserted ==> key in w.holders && w.holders[key] == u && !Known(w, key))
    && (pc in {Searching, Parsing, Inserting, Inserted, Replayed, Rejected} ==> !Entered(w, u))
    && (pc in {Looping, Finished} || u in w.rowWrites ==> Entered(w, u))
  }

  ghost predicate HoldersOk(w: World) {
    forall k :: k in w.holders ==> IsAt(w, w.holders[k], Inserted) && w.uploads[w.holders[k]].key == k
  }

  ghost predicate BatchesOk(w: World) {
    && (forall i, j :: 0 <= i < j < |w.batches| ==> w.batches[i].key != w.batches[j].key)
    && (forall i :: 0 <= i < |w.batches| ==> w.batches[i].uploader in w.uploads && w.uploads[w.batches[i].uploader].key == w.batches[i].key)
    && (forall u :: u in w.rowWrites ==> u in w.uploads)
  }

  ghost predicate Inv(w: World) {
    BatchesOk(w) && HoldersOk(w) && forall u :: u in w.uploads ==> UploadOk(w, u)
  }

  /** Every step but a commit leaves the batch rows alone. */
  lemma QuietStep(w: World, a: Action)
    requires Inv(w) && Enabled(w, a) && !a.Commit?
    ensures Inv(Next(w, a))
  {
    var w' := Next(w, a);
    QuietStepKeepsBatches(w, a);
    QuietStepKeepsHolders(w, a);
    forall u | u in w'.uploads ensures UploadOk(w', u) {
      if u == a.u {
        MovedUploadIsOk(w, a);
      } else {
        OtherUploadIsOk(w, a, u);
      }
    }
  }

  lemma QuietStepKeepsBatches(w: World, a: Action)
    requires Inv(w) && Enabled(w, a) && !a.Commit?
    ensures BatchesOk(Next(w, a))
  {
    var w' := Next(w, a);
    assert w'.batches == w.batches;
    UploadsKeepKeys(w, a);
  }

  lemma UploadsKeepKeys(w: World, a: Action)
    requires Enabled(w, a)
    ensures var w' := Next(w, a); forall u :: u in w.uploads ==> u in w'.uploads && w'.uploads[u].key == w.uploads[u].key
  {
  }

  lemma QuietStepKeepsHolders(w: World, a: Action)
    requires Inv(w) && Enabled(w, a) && !a.Commit?
    ensures HoldersOk(Next(w, a))
  {
    if a.u in w.uploads {
      assert UploadOk(w, a.u);
    }
  }

  lemma MovedUploadIsOk(w: World, a: Action)
    requires Inv(w) && Enabled(w, a) && !a.Commit?
    ensures UploadOk(Next(w, a), a.u)
  {
    assert Next(w, a).batches == w.batches;
    if a.u in w.uploads {
      assert UploadOk(w, a.u);
    }
  }

  lemma OtherUploadIsOk(w: World, a: Action, u: UploadId)
    requires Inv(w) && Enabled(w, a) && !a.Commit? && u != a.u && u in w.uploads
    ensures UploadOk(Next(w, a), u)
  {
    assert Next(w, a).batches == w.batches && UploadOk(w, u);
    if a.u in w.uploads {
      assert UploadOk(w, a.u);
    }
  }

  lemma CommitStep(w: World, u: UploadId)
    requires Inv(w) && Enabled(w, Commit(u))
    ensures Inv(Next(w, Commit(u)))
  {
    CommitKeepsTables(w, u);
    forall v | v in w.uploads ensures UploadOk(Next(w, Commit(u)), v) {
      CommitKeepsUpload(w, u, v);
    }
  }

  lemma CommitKeepsTables(w: World, u: UploadId)
    requires Inv(w) && Enabled(w, Commit(u))
    ensures BatchesOk(Next(w, Commit(u))) && HoldersOk(Next(w, Commit(u)))
  {
    var w', n := Next(w, Commit(u)), |w.batches|;
    assert UploadOk(w, u);
    assert w'.batches[n] == BatchRow(w.uploads[u].key, u) && forall i :: 0 <= i < n ==> w'.batches[i] == w.batches[i];
  }

  lemma CommitKeepsUpload(w: World, u: UploadId, v: UploadId)
    requires Inv(w) && Enabled(w, Commit(u)) && v in w.uploads
    ensures UploadOk(Next(w, Commit(u)), v)
  {
    var w', n := Next(w, Commit(u)), |w.batches|;
    assert UploadOk(w, u) && UploadOk(w, v);
    assert w'.batches[n] == BatchRow(w.uploads[u].key, u) && forall i :: 0 <= i < n ==> w'.batches[i] == w.batches[i];
    if Entered(w, v) {
      var i :| 0 <= i < n && w.batches[i].uploader == v;
      assert w'.batches[i].uploader == v;
    }
  }

  lemma {:induction false} RunKeepsInv(w: World, trace: seq<Action>)
    requires Inv(w) && Legal(w, trace)
    ensures Inv(Exec(w, trace))
    decreases |trace|
  {
    if trace != [] {
      if trace[0].Commit? {
        CommitStep(w, trace[0].u);
      } else {
        QuietStep(w, trace[0]);
      }
      RunKeepsInv(Next(w, trace[0]), trace[1..]);
    }
  }

  /**
    In every interleaving of uploads, crashes included: at most one batch row exists per tenant and file, at most
    one upload of a file ever runs its row loop, and a replayed or rejected upload changes no employee.
  */
  lemma OneProcessingPerFile(trace: seq<Action>)
    requires Legal(EMPTY, trace)
    ensures var w := Exec(EMPTY, trace);
      && (forall i, j :: 0 <= i < j < |w.batches| ==> w.batches[i].key != w.batches[j].key)
      && (forall u, v :: u in w.rowWrites && v in w.rowWrites ==>
            u in w.uploads && v in w.uploads && (w.uploads[u].key == w.uploads[v].key ==> u == v))
      && (forall u :: IsAt(w, u, Replayed) || IsAt(w, u, Rejected) ==> w.rowWrites[u] == 0)
  {
    RunKeepsInv(EMPTY, trace);
    var w := Exec(EMPTY, trace);
    forall u, v | u in w.rowWrites && v in w.rowWrites
      ensures u in w.uploads && v in w.uploads && (w.uploads[u].key == w.uploads[v].key ==> u == v)
    {
      assert UploadOk(w, u) && UploadOk(w, v);
      var i :| 0 <= i < |w.batches| && w.batches[i].uploader == u;
      var j :| 0 <= j < |w.batches| && w.batches[j].uploader == v;
    }
    forall u | IsAt(w, u, Replayed) || IsAt(w, u, Rejected) ensures w.rowWrites[u] == 0 {
      assert UploadOk(w, u);
    }
  }

  // ---- uploads of a file that was seen before ----

  /** The file has its batch row, and the upload has not got beyond looking for it. */
  ghost predicate OnlyReplays(w: World, u: UploadId) {
    u in w.uploads ==> Known(w, w.uploads[u].key) && w.uploads[u].pc in {Searching, Replayed, Dead}
  }

  lemma StepKeepsReplay(w: World, a: Action, u: UploadId)
    requires Enabled(w, a) && OnlyReplays(w, u) && u in w.uploads
    ensures OnlyReplays(Next(w, a), u) && u in Next(w, a).uploads && !(a.ProcessRow? && a.u == u)
    ensures a == Find(u) ==> Next(w, a).uploads[u].pc == Replayed
  {
    var i :| 0 <= i < |w.batches| && w.batches[i].key == w.uploads[u].key;
    assert Next(w, a).batches[i] == w.batches[i];
  }

  /**
    An upload that searches for its file after the batch row was committed finds it: in every continuation it replays
    the batch or dies, and never parses, inserts or handles a row.
  */
  lemma {:induction false} KnownFileIsReplayed(w: World, trace: seq<Action>, u: UploadId)
    requires Legal(w, trace) && OnlyReplays(w, u) && u in w.uploads
    ensures OnlyReplays(Exec(w, trace), u)
    ensures forall a :: a in trace && a.u == u ==> a == Find(u) || a == Crash(u)
    decreases |trace|
  {
    if trace != [] {
      StepKeepsReplay(w, trace[0], u);
      KnownFileIsReplayed(Next(w, trace[0]), trace[1..], u);
      assert trace == [trace[0]] + trace[1..];
    }
  }

  // ---- one import alone is a run of this machine ----

  /** The service's table of batches has the keys of the committed batch rows. */
  ghost predicate Tracks(w: World, batches: map<FileKey, ImportExport.Batch>) {
    forall key :: Known(w, key) <==> key in batches
  }

  lemma Prepend(w: World, a: Action, trace: seq<Action>)
    requires Enabled(w, a) && Legal(Next(w, a), trace)
    ensures Legal(w, [a] + trace) && Exec(w, [a] + trace) == Exec(Next(w, a), trace)
  {
    assert ([a] + trace)[1..] == trace;
  }

  lemma {:induction false} LoopAlone(w: World, u: UploadId, rows: nat) returns (trace: seq<Action>)
    requires IsAt(w, u, Looping)
    ensures Legal(w, trace)
    ensures Exec(w, trace) == Goto(w, u, Finished).(rowWrites := w.rowWrites[u := w.rowWrites[u] + rows])
    decreases rows
  {
    if rows == 0 {
      Prepend(w, Finish(u), []);
      trace := [Finish(u)] + [];
    } else {
      var w1 := Next(w, ProcessRow(u));
      trace := LoopAlone(w1, u, rows - 1);
      assert w1.rowWrites[u := w1.rowWrites[u] + (rows - 1)] == w.rowWrites[u := w.rowWrites[u] + rows];
      Prepend(w, ProcessRow(u), trace);
      trace := [ProcessRow(u)] + trace;
    }
  }

  /** From the insert of the batch row on. */
  lemma InsertAlone(w: World, u: UploadId, rows: nat) returns (trace: seq<Action>)
    requires IsAt(w, u, Inserting) && u !in w.rowWrites && w.uploads[u].key !in w.holders && !Known(w, w.uploads[u].key)
    ensures Legal(w, trace)
    ensures var w' := Exec(w, trace);
      && w'.batches == w.batches + [BatchRow(w.uploads[u].key, u)] && w'.rowWrites[u] == rows && w'.holders == w.holders
  {
    var w1 := Next(w, Insert(u));
    var w2 := Next(w1, Commit(u));
    trace := LoopAlone(w2, u, rows);
    Prepend(w1, Commit(u), trace);
    Prepend(w, Insert(u), [Commit(u)] + trace);
    trace := [Insert(u)] + ([Commit(u)] + trace);
  }

  /**
    What ImportService.ImportEmployees does to its table of batches, while no other upload of the file is at work, is
    what a run of this machine does to the batch rows: nothing for a known file or an unreadable sheet, and else one
    new row, committed before the first row of the sheet is handled.
  */
  lemma ImportIsOneUpload(
    w: World, u: UploadId, key: FileKey, readable: bool, rows: nat,
    batches: map<FileKey, ImportExport.Batch>, batches': map<FileKey, ImportExport.Batch>)
    returns (trace: seq<Action>)
    requires u !in w.uploads && u !in w.rowWrites && key !in w.holders && Tracks(w, batches)
    requires if key in batches || !readable then batches' == batches else key in batches' && batches' == batches[key := batches'[key]]
    ensures Legal(w, trace) && Tracks(Exec(w, trace), batches') && Exec(w, trace).holders == w.holders
    ensures Exec(w, trace).rowWrites[u] == if key in batches || !readable then 0 else rows
  {
    var w1 := Next(w, Begin(u, key));
    var w2 := Next(w1, Find(u));
    trace := [];
    if key !in batches {
      var w3 := Next(w2, Parse(u, readable));
      if readable {
        trace := InsertAlone(w3, u, rows);
        BatchRowAdded(w, Exec(w3, trace), BatchRow(key, u), batches, batches');
      }
      Prepend(w2, Parse(u, readable), trace);
      trace := [Parse(u, readable)] + trace;
    }
    Prepend(w1, Find(u), trace);
    Prepend(w, Begin(u, key), [Find(u)] + trace);
    trace := [Begin(u, key)] + ([Find(u)] + trace);
  }

  /**
    An import by the service is an upload of this machine: the run that it adds keeps the committed batch rows and the
    service's table of batches the same, and handles as many rows as the sheet has, or none.
  */
  method ImportTracked(
    service: ImportExport.ImportService, tenant: Employees.Tenant, fileHash: string, headers: seq<string>,
    cells: seq<seq<ImportExport.Cell>>, isEmail: string -> bool, outage: nat -> bool, ghost m: ImportExport.ByCode,
    ghost w: World, ghost u: UploadId)
    returns (r: RowTable.Reply<ImportExport.ImportResult>, ghost trace: seq<Action>)
    requires service.Valid() && ImportExport.Shows(service.employees.db.rows, tenant, m) && Tracks(w, service.batches)
    requires u !in w.uploads && u !in w.rowWrites && ImportExport.FileKey(tenant, fileHash) !in w.holders
    modifies service, service.employees.db
    ensures service.Valid() && Legal(w, trace) && Tracks(Exec(w, trace), service.batches)
    ensures Exec(w, trace).rowWrites[u] ==
      if Known(w, ImportExport.FileKey(tenant, fileHash)) || r.BadRequest? then 0 else |ImportExport.RowRecords(headers, cells)|
  {
    ghost var before := service.batches;
    var key := ImportExport.FileKey(tenant, fileHash);
    r := service.ImportEmployees(tenant, fileHash, headers, cells, isEmail, outage, m);
    trace := ImportIsOneUpload(
      w, u, key, ImportExport.Readable(headers, cells), |ImportExport.RowRecords(headers, cells)|, before, service.batches);
  }

  lemma BatchRowAdded(
    w: World, w': World, row: BatchRow, batches: map<FileKey, ImportExport.Batch>, batches': map<FileKey, ImportExport.Batch>)
    requires Tracks(w, batches) && w'.batches == w.batches + [row] && batches'.Keys == batches.Keys + {row.key}
    ensures Tracks(w', batches')
  {
    forall key ensures Known(w', key) <==> key in batches' {
      if Known(w, key) {
        var i :| 0 <= i < |w.batches| && w.batches[i].key == key;
        assert w'.batches[i].key == key;
      }
      assert w'.batches[|w.batches|].key == row.key;
    }
  }
}

/** The completion jobs of the import worker: check the idempotency key of a batch, then claim it. */
module ImportJobs {
  type RunId = nat

  datatype Pc = Checking | KeyFree | Claimed | Done | Failed

  datatype Run = Run(key: string, pc: Pc)

  /** keys are the committed idempotency keys in commit order. */
  datatype World = World(keys: seq<string>, holders: map<string, RunId>, runs: map<RunId, Run>)

  const EMPTY := World([], map[], map[])

  datatype Action = Deliver(r: RunId, key: string) | CheckKey(r: RunId) | ClaimKey(r: RunId) | Commit(r: RunId) | Crash(r: RunId)

  predicate IsAt(w: World, r: RunId, pc: Pc) {
    r in w.runs && w.runs[r].pc == pc
  }

  predicate Enabled(w: World, a: Action) {
    match a
    case Deliver(r, _) => r !in w.runs
    case CheckKey(r) => IsAt(w, r, Checking)
    case ClaimKey(r) => IsAt(w, r, KeyFree) && w.runs[r].key !in w.holders
    case Commit(r) => IsAt(w, r, Claimed)
    case Crash(r) => r in w.runs && w.runs[r].pc != Done
  }

  function Goto(w: World, r: RunId, pc: Pc): World
    requires r in w.runs
  {
    w.(runs := w.runs[r := w.runs[r].(pc := pc)])
  }

  function Next(w: World, a: Action): World
    requires Enabled(w, a)
  {
    match a
    case Deliver(r, key) => w.(runs := w.runs[r := Run(key, Checking)])
    case CheckKey(r) => Goto(w, r, if w.runs[r].key in w.keys then Done else KeyFree)
    case ClaimKey(r) =>
      if w.runs[r].key in w.keys then Goto(w, r, Failed)
      else Goto(w, r, Claimed).(holders := w.holders[w.runs[r].key := r])
    case Commit(r) => Goto(w, r, Done).(keys := w.keys + [w.runs[r].key], holders := w.holders - {w.runs[r].key})
    case Crash(r) =>
      Goto(w, r, Failed).(holders := if w.runs[r].pc == Claimed then w.holders - {w.runs[r].key} else w.holders)
  }

  ghost predicate Legal(w: World, trace: seq<Action>)
    decreases |trace|
  {
    trace != [] ==> Enabled(w, trace[0]) && Legal(Next(w, trace[0]), trace[1..])
  }

  ghost function Exec(w: World, trace: seq<Action>): World
    requires Legal(w, trace)
    decreases |trace|
  {
    if trace == [] then w else Exec(Next(w, trace[0]), trace[1..])
  }

  ghost predicate Inv(w: World) {
    && (forall i, j :: 0 <= i < j < |w.keys| ==> w.keys[i] != w.keys[j])
    && (forall k :: k in w.holders ==> IsAt(w, w.holders[k], Claimed) && w.runs[w.holders[k]].key == k)
    && (forall r :: IsAt(w, r, Claimed) ==>
          w.runs[r].key in w.holders && w.holders[w.runs[r].key] == r && w.runs[r].key !in w.keys)
    && (forall r :: IsAt(w, r, Done) ==> w.runs[r].key in w.keys)
  }

  lemma StepKeepsInv(w: World, a: Action)
    requires Inv(w) && Enabled(w, a)
    ensures Inv(Next(w, a))
  {
    OthersStay(w, a);
    if a.Commit? {
      assert IsAt(w, a.r, Claimed);
      CommitKeepsInv(w, a);
    }
  }

  lemma OthersStay(w: World, a: Action)
    requires Enabled(w, a)
    ensures forall r, pc :: r != a.r ==> (IsAt(Next(w, a), r, pc) <==> IsAt(w, r, pc))
  {
  }

  lemma CommitKeepsInv(w: World, a: Action)
    requires Inv(w) && Enabled(w, a) && a.Commit?
    ensures Inv(Next(w, a))
  {
    OthersStay(w, a);
    assert IsAt(w, a.r, Claimed);
  }

  /** However often completion jobs are delivered, run at once or crash: no key twice, and a done job has its key. */
  lemma {:induction false} OneKeyPerBatch(w: World, trace: seq<Action>)
    requires Inv(w) && Legal(w, trace)
    ensures Inv(Exec(w, trace))
    decreases |trace|
  {
    if trace != [] {
      StepKeepsInv(w, trace[0]);
      OneKeyPerBatch(Next(w, trace[0]), trace[1..]);
    }
  }

  lemma EachDoneBatchHasOneKey(trace: seq<Action>, r: RunId)
    requires Legal(EMPTY, trace) && IsAt(Exec(EMPTY, trace), r, Done)
    ensures var w := Exec(EMPTY, trace); multiset(w.keys)[w.runs[r].key] == 1
  {
    OneKeyPerBatch(EMPTY, trace);
    DistinctMeansOnce(Exec(EMPTY, trace).keys, Exec(EMPTY, trace).runs[r].key);
  }

  lemma {:induction false} DistinctMeansOnce(keys: seq<string>, k: string)
    requires k in keys && forall i, j :: 0 <= i < j < |keys| ==> keys[i] != keys[j]
    ensures multiset(keys)[k] == 1
  {
    var front, last := keys[..|keys| - 1], keys[|keys| - 1];
    assert keys == front + [last];
    if last == k {
      assert k !in front;
    } else {
      DistinctMeansOnce(front, k);
    }
  }

  lemma {:induction false} ExecAppend(w: World, trace: seq<Action>, a: Action)
    requires Legal(w, trace) && Enabled(Exec(w, trace), a)
    ensures Legal(w, trace + [a]) && Exec(w, trace + [a]) == Next(Exec(w, trace), a)
    decreases |trace|
  {
    if trace == [] {
      assert [a][1..] == [];
    } else {
      ExecAppend(Next(w, trace[0]), trace[1..], a);
      assert (trace + [a])[1..] == trace[1..] + [a];
    }
  }

  datatype Outcome = Rejected | AlreadyProcessed | Processed

  /** The trace is a run from the empty world, and it ends in w. */
  ghost predicate IsRun(trace: seq<Action>, w: World) {
    forall w0 {:trigger Legal(w0, trace)} :: w0 == EMPTY ==> Legal(w0, trace) && w == Exec(w0, trace)
  }

  lemma RunAppend(trace: seq<Action>, w: World, a: Action)
    requires IsRun(trace, w) && Enabled(w, a)
    ensures IsRun(trace + [a], Next(w, a))
  {
    assert Legal(EMPTY, trace);
    ExecAppend(EMPTY, trace, a);
  }

  class ImportWorker {
    var keys: seq<string>
    var holders: map<string, RunId>
    var runs: map<RunId, Run>
    ghost var trace: seq<Action>

    ghost function Snapshot(): World
      reads this
    {
      World(keys, holders, runs)
    }

    ghost predicate Valid()
      reads this
    {
      IsRun(trace, Snapshot())
    }

    constructor ()
      ensures Valid() && Snapshot() == EMPTY
    {
      keys, holders, runs, trace := [], map[], map[], [];
    }

    ghost method Record(a: Action, w: World)
      requires IsRun(trace, w) && Enabled(w, a) && Snapshot() == Next(w, a)
      modifies this`trace
      ensures Valid() && trace == old(trace) + [a]
    {
      RunAppend(trace, w, a);
      trace := trace + [a];
    }

    /** The job body, while no other transaction holds the key; a job of an inactive tenant throws before the check. */
    method ProcessJob(r: RunId, key: string, active: bool) returns (outcome: Outcome)
      requires Valid() && r !in runs && key !in holders
      modifies this
      ensures Valid() && old(trace) <= trace && holders == old(holders)
      ensures outcome == if !active then Rejected else if key in old(keys) then AlreadyProcessed else Processed
      ensures keys == if outcome == Processed then old(keys) + [key] else old(keys)
      ensures runs == if active then old(runs)[r := Run(key, Done)] else old(runs)
    {
      if !active {
        return Rejected;
      }
      ghost var w := Snapshot();
      runs := runs[r := Run(key, Checking)];
      Record(Deliver(r, key), w);
      w := Snapshot();
      if key in keys {
        runs := runs[r := Run(key, Done)];
        Record(CheckKey(r), w);
        return AlreadyProcessed;
      }
      runs := runs[r := Run(key, KeyFree)];
      Record(CheckKey(r), w);
      Claim(r, key);
      return Processed;
    }

    /** The INSERT of the key and the COMMIT. */
    method Claim(r: RunId, key: string)
      requires Valid() && r in runs && runs[r] == Run(key, KeyFree) && key !in keys && key !in holders
      modifies this
      ensures Valid() && old(trace) <= trace && holders == old(holders)
      ensures keys == old(keys) + [key] && runs == old(runs)[r := Run(key, Done)]
    {
      ghost var w := Snapshot();
      holders := holders[key := r];
      runs := runs[r := Run(key, Claimed)];
      Record(ClaimKey(r), w);
      w := Snapshot();
      keys := keys + [key];
      holders := holders - {key};
      runs := runs[r := Run(key, Done)];
      Record(Commit(r), w);
    }
  }
}
