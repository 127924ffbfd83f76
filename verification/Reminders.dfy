/**
  The reminder worker: one transaction per job that checks the idempotency key, sends, logs and claims the key.

  Up to `cap` jobs run at once (five per worker process), copies of the same job included. Each action is one
  statement of the job body; READ COMMITTED shows a statement the committed tables, and the INSERT of a key
  waits for an uncommitted holder of the same key.
*/
module Reminders {
  import opened Wrappers
  import opened Decimal

  type RunId = nat
  type Tenant = nat
  type DocId = string

  const CONCURRENCY := 5

  datatype Job = Job(tenantId: Tenant, documentId: DocId, daysBeforeExpiry: int)

  datatype Status = SENT | FAILED | SUPPRESSED

  /** A row of notification_log; a document that is gone is recorded as a missing id. */
  datatype LogRow = LogRow(documentId: Option<DocId>, daysBeforeExpiry: int, status: Status) {
    /** Only these outcomes claim the key. */
    predicate Terminal() { status != FAILED }
  }

  /** A committed row and the job that wrote it. */
  datatype Entry = Entry(job: Job, row: LogRow)

  /** What the document query finds. */
  datatype Lookup = Missing | WithoutEmail | WithEmail

  datatype Pc =
    | Begun | TenantActive | Replaying | KeyFree | Unsendable(row: LogRow) | Ready | SendDone | SendThrew
    | Logged(row: LogRow) | Claimed(row: LogRow) | Poisoned

  datatype Run = Run(job: Job, pc: Pc)

  /** keys maps a committed key to its tenant; sent counts the sends that completed, by key, and is never rolled back. */
  datatype World = World(
    log: seq<Entry>, keys: map<string, Tenant>, holders: map<string, RunId>, runs: map<RunId, Run>, sent: multiset<string>)

  datatype Action =
    | Start(run: RunId, job: Job)
    | CheckTenant(run: RunId, active: bool)
    | CheckKey(run: RunId)
    | FindDocument(run: RunId, found: Lookup)
    | Send(run: RunId, ok: bool)
    | InsertLog(run: RunId)
    | ClaimKey(run: RunId)
    | Commit(run: RunId)
    | FailOut(run: RunId)
    | Fault(run: RunId)
    | Crash(run: RunId)

  const EMPTY := World([], map[], map[], map[], multiset{})

  // ---- the idempotency key ----

  function IntText(n: int): string {
    if n < 0 then "-" + Shortest(0 - n) else Shortest(n)
  }

  function Key(job: Job): string {
    "reminder:" + job.documentId + ":" + IntText(job.daysBeforeExpiry)
  }

  lemma IntTextHasNoColon(n: int)
    ensures ':' !in IntText(n)
  {
  }

  lemma IntTextIsInjective(m: int, n: int)
    requires IntText(m) == IntText(n)
    ensures m == n
  {
    var a, b := if m < 0 then 0 - m else m, if n < 0 then 0 - n else n;
    ValueOfShortest(a);
    ValueOfShortest(b);
    assert IntText(m)[0] == '-' <==> m < 0;
    assert IntText(n)[0] == '-' <==> n < 0;
    if m < 0 {
      assert IntText(m)[1..] == Shortest(a) && IntText(n)[1..] == Shortest(b);
    }
  }

  lemma LastColonSplits(d: string, t: string, e: string, u: string)
    requires d + ":" + t == e + ":" + u && ':' !in t && ':' !in u
    ensures d == e && t == u
  {
    var s := d + ":" + t;
    assert s[|d|] == ':' && s[|e|] == ':';
    assert forall i :: |d| < i < |s| ==> s[i] == t[i - |d| - 1];
    assert forall i :: |e| < i < |s| ==> s[i] == u[i - |e| - 1];
    assert |d| == |e|;
    assert d == s[..|d|] && e == s[..|e|] && t == s[|d| + 1..] && u == s[|e| + 1..];
  }

  /** The key of a reminder, spelled out. */
  lemma KeyOfAReminder(tenant: Tenant)
    ensures Key(Job(tenant, "8f0c", 30)) == "reminder:8f0c:30"
  {
    assert Shortest(30) == Shortest(3) + "0";
  }

  /** Two jobs share a key only if they are about the same document and threshold, whatever text the ids are. */
  lemma KeyIsInjective(a: Job, b: Job)
    ensures Key(a) == Key(b) <==> a.documentId == b.documentId && a.daysBeforeExpiry == b.daysBeforeExpiry
  {
    if Key(a) == Key(b) {
      IntTextHasNoColon(a.daysBeforeExpiry);
      IntTextHasNoColon(b.daysBeforeExpiry);
      LastColonSplits("reminder:" + a.documentId, IntText(a.daysBeforeExpiry), "reminder:" + b.documentId, IntText(b.daysBeforeExpiry));
      assert ("reminder:" + a.documentId)[9..] == a.documentId && ("reminder:" + b.documentId)[9..] == b.documentId;
      IntTextIsInjective(a.daysBeforeExpiry, b.daysBeforeExpiry);
    }
  }

  // ---- the machine ----

  predicate At(w: World, r: RunId, pc: Pc) {
    r in w.runs && w.runs[r].pc == pc
  }

  predicate Enabled(cap: nat, w: World, a: Action) {
    if a.Start? then a.run !in w.runs && |w.runs| < cap else
      a.run in w.runs &&
      var pc := w.runs[a.run].pc;
      match a
      case Start(_, _) => true
      case CheckTenant(_, _) => pc == Begun
      case CheckKey(_) => pc == TenantActive
      case FindDocument(_, _) => pc == KeyFree
      case Send(_, _) => pc == Ready
      case InsertLog(_) => pc.Unsendable? || pc == SendDone || pc == SendThrew
      case ClaimKey(r) => pc.Logged? && pc.row.Terminal() && Key(w.runs[r].job) !in w.holders
      case Commit(_) => pc == Replaying || pc.Claimed? || (pc.Logged? && !pc.row.Terminal())
      case FailOut(_) => pc == Poisoned
      case Fault(_) => true
      case Crash(_) => true
  }

  function Goto(w: World, r: RunId, pc: Pc): World
    requires r in w.runs
  {
    w.(runs := w.runs[r := w.runs[r].(pc := pc)])
  }

  /** The transaction ends, and the key it holds, if any, is released. */
  function End(w: World, r: RunId): World
    requires r in w.runs
  {
    w.(runs := w.runs - {r}, holders := if w.runs[r].pc.Claimed? then w.holders - {Key(w.runs[r].job)} else w.holders)
  }

  function RowFor(job: Job, pc: Pc): LogRow
    requires pc.Unsendable? || pc == SendDone || pc == SendThrew
  {
    if pc.Unsendable? then pc.row
    else LogRow(Some(job.documentId), job.daysBeforeExpiry, if pc == SendDone then SENT else FAILED)
  }

  function Next(cap: nat, w: World, a: Action): World
    requires Enabled(cap, w, a)
  {
    var r := a.run;
    if a.Start? then w.(runs := w.runs[r := Run(a.job, Begun)]) else
      var job, pc := w.runs[r].job, w.runs[r].pc;
      match a
      case Start(_, _) => w
      case CheckTenant(_, active) => if active then Goto(w, r, TenantActive) else End(w, r)
      // Row-level security hides a key that another tenant owns from this query.
      case CheckKey(_) => Goto(w, r, if Key(job) in w.keys && w.keys[Key(job)] == job.tenantId then Replaying else KeyFree)
      case FindDocument(_, found) =>
        Goto(w, r, match found
                   case Missing => Unsendable(LogRow(None, job.daysBeforeExpiry, SUPPRESSED))
                   case WithoutEmail => Unsendable(LogRow(Some(job.documentId), job.daysBeforeExpiry, SUPPRESSED))
                   case WithEmail => Ready)
      case Send(_, ok) => if ok then Goto(w, r, SendDone).(sent := w.sent + multiset{Key(job)}) else Goto(w, r, SendThrew)
      case InsertLog(_) => Goto(w, r, Logged(RowFor(job, pc)))
      // The unique violation aborts the transaction.
      case ClaimKey(_) =>
        if Key(job) in w.keys then Goto(w, r, Poisoned)
        else Goto(w, r, Claimed(pc.row)).(holders := w.holders[Key(job) := r])
      case Commit(_) =>
        if pc == Replaying then End(w, r)
        else End(w, r).(log := w.log + [Entry(job, pc.row)],
                        keys := if pc.Claimed? then w.keys[Key(job) := job.tenantId] else w.keys)
      // The FAILED insert of the catch block fails too, or the error was thrown outside the try: ROLLBACK.
      case FailOut(_) => End(w, r)
      // Any statement may fail for a reason of its own; the transaction can then only roll back.
      case Fault(_) => Goto(w, r, Poisoned).(holders := End(w, r).holders)
      case Crash(_) => End(w, r)
  }

  ghost predicate Legal(cap: nat, w: World, trace: seq<Action>)
    decreases |trace|
  {
    trace != [] ==> Enabled(cap, w, trace[0]) && Legal(cap, Next(cap, w, trace[0]), trace[1..])
  }

  ghost function Exec(cap: nat, w: World, trace: seq<Action>): World
    requires Legal(cap, w, trace)
    decreases |trace|
  {
    if trace == [] then w else Exec(cap, Next(cap, w, trace[0]), trace[1..])
  }

  /** The scanner puts the tenant that owns the document into the job. */
  ghost predicate ScannerMade(owner: DocId -> Tenant, trace: seq<Action>) {
    forall a :: a in trace && a.Start? ==> a.job.tenantId == owner(a.job.documentId)
  }

  /** No fault but the unique violation of the key itself. */
  predicate FaultFree(trace: seq<Action>) {
    forall a :: a in trace ==> !a.Fault? && !a.Crash?
  }

  // ---- safety, under every fault ----

  /** The row belongs to the job. */
  predicate RowMatches(job: Job, row: LogRow) {
    && row.daysBeforeExpiry == job.daysBeforeExpiry
    && (row.documentId == Some(job.documentId) || (row.documentId.None? && row.status == SUPPRESSED))
  }

  ghost predicate RunOk(owner: DocId -> Tenant, w: World, r: RunId)
    requires r in w.runs
  {
    var job, pc := w.runs[r].job, w.runs[r].pc;
    && job.tenantId == owner(job.documentId)
    && (pc.Unsendable? ==> RowMatches(job, pc.row) && pc.row.status == SUPPRESSED)
    && (pc.Logged? || pc.Claimed? ==> RowMatches(job, pc.row))
    && (pc.Claimed? ==> pc.row.Terminal() && Key(job) in w.holders && w.holders[Key(job)] == r && Key(job) !in w.keys)
    && (pc == SendDone || ((pc.Logged? || pc.Claimed?) && pc.row.status == SENT) ==> w.sent[Key(job)] >= 1)
  }

  ghost predicate EntryOk(w: World, e: Entry) {
    && RowMatches(e.job, e.row)
    && (e.row.Terminal() ==> Key(e.job) in w.keys)
    && (e.row.status == SENT ==> w.sent[Key(e.job)] >= 1)
  }

  /** The row at i is the terminal row of key k. */
  ghost predicate Ends(w: World, k: string, i: int) {
    0 <= i < |w.log| && w.log[i].row.Terminal() && Key(w.log[i].job) == k
  }

  ghost predicate LogOk(owner: DocId -> Tenant, w: World) {
    && (forall i :: 0 <= i < |w.log| ==> EntryOk(w, w.log[i]))
    && (forall i, j, k {:trigger Ends(w, k, i), Ends(w, k, j)} :: Ends(w, k, i) && Ends(w, k, j) ==> i == j)
    && (forall k :: k in w.keys ==> exists i :: Ends(w, k, i) && w.keys[k] == owner(w.log[i].job.documentId))
  }

  ghost predicate HoldersOk(w: World) {
    forall k :: k in w.holders ==> Holds(w, k)
  }

  ghost predicate Holds(w: World, k: string)
    requires k in w.holders
  {
    w.holders[k] in w.runs && w.runs[w.holders[k]].pc.Claimed? && Key(w.runs[w.holders[k]].job) == k
  }

  ghost predicate Inv(owner: DocId -> Tenant, w: World) {
    LogOk(owner, w) && HoldersOk(w) && forall r :: r in w.runs ==> RunOk(owner, w, r)
  }

  /** What the document query decides: only a document that is gone is recorded without its id. */
  lemma LookupDecides(cap: nat, w: World, r: RunId, found: Lookup)
    requires Enabled(cap, w, FindDocument(r, found))
    ensures var job := w.runs[r].job; var pc := Next(cap, w, FindDocument(r, found)).runs[r].pc;
      match found
      case Missing => pc == Unsendable(LogRow(None, job.daysBeforeExpiry, SUPPRESSED))
      case WithoutEmail => pc == Unsendable(LogRow(Some(job.documentId), job.daysBeforeExpiry, SUPPRESSED))
      case WithEmail => pc == Ready
  {
  }

  lemma LogFrame(owner: DocId -> Tenant, w: World, w': World)
    requires LogOk(owner, w) && w'.log == w.log && w'.keys == w.keys && w.sent <= w'.sent
    ensures LogOk(owner, w')
  {
    forall i | 0 <= i < |w'.log| ensures EntryOk(w', w'.log[i]) {
      assert EntryOk(w, w.log[i]);
    }
    forall k | k in w'.keys ensures exists i :: Ends(w', k, i) && w'.keys[k] == owner(w'.log[i].job.documentId) {
      var i :| Ends(w, k, i) && w.keys[k] == owner(w.log[i].job.documentId);
      assert Ends(w', k, i);
    }
    forall i, j, k | Ends(w', k, i) && Ends(w', k, j) ensures i == j {
      assert Ends(w, k, i) && Ends(w, k, j);
    }
  }

  /** A commit appends one row, and its key if the row is terminal. */
  lemma AppendKeepsLogOk(owner: DocId -> Tenant, w: World, job: Job, row: LogRow)
    requires LogOk(owner, w) && RowMatches(job, row) && job.tenantId == owner(job.documentId)
    requires row.Terminal() ==> Key(job) !in w.keys
    requires row.status == SENT ==> w.sent[Key(job)] >= 1
    ensures LogOk(owner, w.(log := w.log + [Entry(job, row)], keys := if row.Terminal() then w.keys[Key(job) := job.tenantId] else w.keys))
  {
    var w' := w.(log := w.log + [Entry(job, row)], keys := if row.Terminal() then w.keys[Key(job) := job.tenantId] else w.keys);
    var n := |w.log|;
    forall i | 0 <= i < |w'.log| ensures EntryOk(w', w'.log[i]) {
      if i < n {
        assert w'.log[i] == w.log[i] && EntryOk(w, w.log[i]);
      }
    }
    forall k, i | Ends(w', k, i) ensures if i < n then Ends(w, k, i) && k in w.keys else k == Key(job) && k !in w.keys {
      if i < n {
        assert w'.log[i] == w.log[i] && EntryOk(w, w.log[i]);
      }
    }
    forall i, j, k | Ends(w', k, i) && Ends(w', k, j) ensures i == j {
      if i < n && j < n {
        assert Ends(w, k, i) && Ends(w, k, j);
      }
    }
    forall k | k in w'.keys ensures exists i :: Ends(w', k, i) && w'.keys[k] == owner(w'.log[i].job.documentId) {
      if row.Terminal() && k == Key(job) {
        assert Ends(w', k, n);
      } else {
        var i :| Ends(w, k, i) && w.keys[k] == owner(w.log[i].job.documentId);
        assert w'.log[i] == w.log[i] && Ends(w', k, i);
      }
    }
  }

  lemma QuietStepKeepsLogOk(cap: nat, owner: DocId -> Tenant, w: World, a: Action)
    requires Inv(owner, w) && Enabled(cap, w, a) && (a.Commit? ==> w.runs[a.run].pc == Replaying)
    ensures LogOk(owner, Next(cap, w, a))
  {
    QuietStepLeavesTables(cap, w, a);
    LogFrame(owner, w, Next(cap, w, a));
  }

  lemma QuietStepLeavesTables(cap: nat, w: World, a: Action)
    requires Enabled(cap, w, a) && (a.Commit? ==> w.runs[a.run].pc == Replaying)
    ensures Next(cap, w, a).log == w.log && Next(cap, w, a).keys == w.keys && w.sent <= Next(cap, w, a).sent
  {
  }

  lemma CommitKeepsInv(cap: nat, owner: DocId -> Tenant, w: World, a: Action)
    requires Inv(owner, w) && Enabled(cap, w, a) && a.Commit? && w.runs[a.run].pc != Replaying
    ensures Inv(owner, Next(cap, w, a))
  {
    var job, pc := w.runs[a.run].job, w.runs[a.run].pc;
    var w' := Next(cap, w, a);
    assert RunOk(owner, w, a.run);
    AppendKeepsLogOk(owner, w, job, pc.row);
    LogFrame(owner, w.(log := w'.log, keys := w'.keys), w');
    StepKeepsHoldersOk(cap, owner, w, a);
    forall q | q in w'.runs ensures RunOk(owner, w', q) {
      CommitKeepsRun(cap, owner, w, a, q);
    }
  }

  lemma CommitKeepsRun(cap: nat, owner: DocId -> Tenant, w: World, a: Action, q: RunId)
    requires Inv(owner, w) && Enabled(cap, w, a) && a.Commit? && w.runs[a.run].pc != Replaying && q in Next(cap, w, a).runs
    ensures RunOk(owner, Next(cap, w, a), q)
  {
    assert RunOk(owner, w, a.run) && RunOk(owner, w, q);
    OtherRunsStay(cap, w, a, q);
    if w.runs[q].pc.Claimed? {
      OtherHoldersStay(cap, owner, w, a, Key(w.runs[q].job));
    }
  }

  lemma MovedRunIsOk(cap: nat, owner: DocId -> Tenant, w: World, a: Action)
    requires Inv(owner, w) && Enabled(cap, w, a) && (a.Commit? ==> w.runs[a.run].pc == Replaying)
    requires a.Start? ==> a.job.tenantId == owner(a.job.documentId)
    requires a.run in Next(cap, w, a).runs
    ensures RunOk(owner, Next(cap, w, a), a.run)
  {
    match a
    case InsertLog(_) => LoggedRunIsOk(cap, owner, w, a);
    case ClaimKey(_) => ClaimedRunIsOk(cap, owner, w, a);
    case FindDocument(_, _) => FoundRunIsOk(cap, owner, w, a);
    case _ => PlainMoveIsOk(cap, owner, w, a);
  }

  lemma LoggedRunIsOk(cap: nat, owner: DocId -> Tenant, w: World, a: Action)
    requires Inv(owner, w) && Enabled(cap, w, a) && a.InsertLog?
    ensures RunOk(owner, Next(cap, w, a), a.run)
  {
    assert RunOk(owner, w, a.run);
  }

  lemma ClaimedRunIsOk(cap: nat, owner: DocId -> Tenant, w: World, a: Action)
    requires Inv(owner, w) && Enabled(cap, w, a) && a.ClaimKey?
    ensures RunOk(owner, Next(cap, w, a), a.run)
  {
    assert RunOk(owner, w, a.run);
  }

  lemma FoundRunIsOk(cap: nat, owner: DocId -> Tenant, w: World, a: Action)
    requires Inv(owner, w) && Enabled(cap, w, a) && a.FindDocument?
    ensures RunOk(owner, Next(cap, w, a), a.run)
  {
    assert RunOk(owner, w, a.run);
  }

  lemma PlainMoveIsOk(cap: nat, owner: DocId -> Tenant, w: World, a: Action)
    requires Inv(owner, w) && Enabled(cap, w, a) && !a.InsertLog? && !a.ClaimKey? && !a.FindDocument?
    requires a.run in Next(cap, w, a).runs
    requires a.Start? ==> a.job.tenantId == owner(a.job.documentId)
    ensures RunOk(owner, Next(cap, w, a), a.run)
  {
    if a.run in w.runs {
      assert RunOk(owner, w, a.run);
    }
  }

  lemma OtherRunIsOk(cap: nat, owner: DocId -> Tenant, w: World, a: Action, q: RunId)
    requires Inv(owner, w) && Enabled(cap, w, a) && (a.Commit? ==> w.runs[a.run].pc == Replaying)
    requires q in w.runs && q != a.run
    ensures RunOk(owner, Next(cap, w, a), q)
  {
    assert RunOk(owner, w, q);
    OtherRunsStay(cap, w, a, q);
    QuietStepLeavesTables(cap, w, a);
    if w.runs[q].pc.Claimed? {
      OtherHoldersStay(cap, owner, w, a, Key(w.runs[q].job));
    }
  }

  lemma OtherHoldersStay(cap: nat, owner: DocId -> Tenant, w: World, a: Action, k: string)
    requires Inv(owner, w) && Enabled(cap, w, a) && k in w.holders && w.holders[k] != a.run
    ensures k in Next(cap, w, a).holders && Next(cap, w, a).holders[k] == w.holders[k]
  {
    if a.run in w.runs {
      assert RunOk(owner, w, a.run);
    }
  }

  lemma StepKeepsHoldersOk(cap: nat, owner: DocId -> Tenant, w: World, a: Action)
    requires Inv(owner, w) && Enabled(cap, w, a)
    ensures HoldersOk(Next(cap, w, a))
  {
    forall k | k in Next(cap, w, a).holders ensures Holds(Next(cap, w, a), k) {
      if Next(cap, w, a).holders[k] == a.run {
        OwnHolderIsOk(cap, owner, w, a, k);
      } else {
        OtherHolderIsOk(cap, owner, w, a, k);
      }
    }
  }

  lemma OtherHolderIsOk(cap: nat, owner: DocId -> Tenant, w: World, a: Action, k: string)
    requires Inv(owner, w) && Enabled(cap, w, a)
    requires k in Next(cap, w, a).holders && Next(cap, w, a).holders[k] != a.run
    ensures Holds(Next(cap, w, a), k)
  {
    OtherHolderWasThere(cap, w, a, k);
    OtherRunsStay(cap, w, a, w.holders[k]);
  }

  lemma OtherHolderWasThere(cap: nat, w: World, a: Action, k: string)
    requires Enabled(cap, w, a) && k in Next(cap, w, a).holders && Next(cap, w, a).holders[k] != a.run
    ensures k in w.holders && Next(cap, w, a).holders[k] == w.holders[k]
  {
  }

  lemma OwnHolderIsOk(cap: nat, owner: DocId -> Tenant, w: World, a: Action, k: string)
    requires Inv(owner, w) && Enabled(cap, w, a)
    requires k in Next(cap, w, a).holders && Next(cap, w, a).holders[k] == a.run
    ensures Holds(Next(cap, w, a), k)
  {
    if a.ClaimKey? {
      assert RunOk(owner, w, a.run);
    } else {
      HolderWasThere(cap, w, a, k);
      HolderLeaves(cap, w, a, k);
    }
  }

  lemma HolderWasThere(cap: nat, w: World, a: Action, k: string)
    requires Enabled(cap, w, a) && !a.ClaimKey? && k in Next(cap, w, a).holders
    ensures k in w.holders && w.holders[k] == Next(cap, w, a).holders[k]
  {
  }

  /** A run that holds a key can only commit or roll back, and gives the key up. */
  lemma HolderLeaves(cap: nat, w: World, a: Action, k: string)
    requires HoldersOk(w) && Enabled(cap, w, a) && k in w.holders && w.holders[k] == a.run
    ensures k !in Next(cap, w, a).holders
  {
    assert Holds(w, k);
  }

  lemma StepKeepsInv(cap: nat, owner: DocId -> Tenant, w: World, a: Action)
    requires Inv(owner, w) && Enabled(cap, w, a)
    requires a.Start? ==> a.job.tenantId == owner(a.job.documentId)
    ensures Inv(owner, Next(cap, w, a))
  {
    if a.Commit? && w.runs[a.run].pc != Replaying {
      CommitKeepsInv(cap, owner, w, a);
    } else {
      var w' := Next(cap, w, a);
      QuietStepKeepsLogOk(cap, owner, w, a);
      StepKeepsHoldersOk(cap, owner, w, a);
      forall q | q in w'.runs ensures RunOk(owner, w', q) {
        if q == a.run {
          MovedRunIsOk(cap, owner, w, a);
        } else {
          OtherRunIsOk(cap, owner, w, a, q);
        }
      }
    }
  }

  lemma {:induction false} RunKeepsInv(cap: nat, owner: DocId -> Tenant, w: World, trace: seq<Action>)
    requires Inv(owner, w) && Legal(cap, w, trace) && ScannerMade(owner, trace)
    ensures Inv(owner, Exec(cap, w, trace))
    decreases |trace|
  {
    if trace != [] {
      StepKeepsInv(cap, owner, w, trace[0]);
      RunKeepsInv(cap, owner, Next(cap, w, trace[0]), trace[1..]);
    }
  }

  /**
    At most one SENT row is ever committed for a document and a threshold, whatever is redelivered, crashes or
    fails; and a committed SENT row had a send that completed.
  */
  lemma AtMostOnceSent(cap: nat, owner: DocId -> Tenant, trace: seq<Action>, i: nat, j: nat)
    requires Legal(cap, EMPTY, trace) && ScannerMade(owner, trace)
    requires var log := Exec(cap, EMPTY, trace).log;
      && i < |log| && j < |log| && log[i].row.status == log[j].row.status == SENT
      && log[i].row.documentId == log[j].row.documentId && log[i].row.daysBeforeExpiry == log[j].row.daysBeforeExpiry
    ensures i == j && Exec(cap, EMPTY, trace).sent[Key(Exec(cap, EMPTY, trace).log[i].job)] >= 1
  {
    RunKeepsInv(cap, owner, EMPTY, trace);
    var w := Exec(cap, EMPTY, trace);
    assert EntryOk(w, w.log[i]) && EntryOk(w, w.log[j]);
    KeyIsInjective(w.log[i].job, w.log[j].job);
    assert Ends(w, Key(w.log[i].job), i) && Ends(w, Key(w.log[i].job), j);
  }

  /** Committed keys and terminal rows are in bijection: every key ends at exactly one row, every terminal row has its key. */
  lemma KeysMatchTerminalRows(cap: nat, owner: DocId -> Tenant, trace: seq<Action>)
    requires Legal(cap, EMPTY, trace) && ScannerMade(owner, trace)
    ensures var w := Exec(cap, EMPTY, trace);
      && (forall k :: k in w.keys <==> exists i :: Ends(w, k, i))
      && (forall k, i, j {:trigger Ends(w, k, i), Ends(w, k, j)} :: Ends(w, k, i) && Ends(w, k, j) ==> i == j)
  {
    RunKeepsInv(cap, owner, EMPTY, trace);
    var w := Exec(cap, EMPTY, trace);
    forall k, i | Ends(w, k, i) ensures k in w.keys {
      assert EntryOk(w, w.log[i]);
    }
  }

  /** A commit adds one row and claims the key exactly for a terminal row; a run that found its key adds nothing. */
  lemma CommitEffect(cap: nat, owner: DocId -> Tenant, w: World, r: RunId)
    requires Inv(owner, w) && Enabled(cap, w, Commit(r))
    ensures var w' := Next(cap, w, Commit(r)); var k := Key(w.runs[r].job);
      if w.runs[r].pc == Replaying then w'.log == w.log && w'.keys == w.keys
      else
        && |w'.log| == |w.log| + 1 && w.log < w'.log && RowMatches(w.runs[r].job, w'.log[|w.log|].row)
        && (w'.log[|w.log|].row.Terminal() <==> k !in w.keys && k in w'.keys)
        && w'.keys.Keys - {k} == w.keys.Keys - {k}
  {
    assert RunOk(owner, w, r);
  }

  // ---- how often one reminder can be sent ----

  /** The open runs of a key that are at certain points of the job body. */
  ghost function Members(w: World, k: string, at: Pc -> bool): set<RunId> {
    set q | q in w.runs && Key(w.runs[q].job) == k && at(w.runs[q].pc)
  }

  /** The send completed and its record is not committed yet. */
  predicate HasSent(pc: Pc) {
    pc == SendDone || ((pc.Logged? || pc.Claimed?) && pc.row.status == SENT)
  }

  /** Past the key check, and the send is still ahead. */
  predicate MaySend(pc: Pc) {
    pc == KeyFree || pc == Ready
  }

  /** 1 if run r is counted by Members. */
  function Counts(w: World, r: RunId, k: string, at: Pc -> bool): int {
    if r in w.runs && Key(w.runs[r].job) == k && at(w.runs[r].pc) then 1 else 0
  }

  lemma RemoveSize(a: set<RunId>, r: RunId)
    ensures |a - {r}| == |a| - (if r in a then 1 else 0)
  {
    if r !in a {
      assert a - {r} == a;
    }
  }

  lemma SameOthers(w: World, w': World, r: RunId, k: string, at: Pc -> bool)
    requires forall q :: q != r ==> (q in w.runs <==> q in w'.runs) && (q in w.runs ==> w.runs[q] == w'.runs[q])
    ensures Members(w', k, at) - {r} == Members(w, k, at) - {r}
  {
  }

  lemma MembersStep(w: World, w': World, r: RunId, k: string, at: Pc -> bool)
    requires forall q :: q != r ==> (q in w.runs <==> q in w'.runs) && (q in w.runs ==> w.runs[q] == w'.runs[q])
    ensures |Members(w', k, at)| == |Members(w, k, at)| - Counts(w, r, k, at) + Counts(w', r, k, at)
  {
    SameOthers(w, w', r, k, at);
    RemoveSize(Members(w, k, at), r);
    RemoveSize(Members(w', k, at), r);
  }

  ghost predicate Bound(cap: nat, w: World, k: string) {
    if k in w.keys then w.sent[k] + |Members(w, k, MaySend)| <= cap
    else w.sent[k] == |Members(w, k, HasSent)|
  }

  lemma KeyShowsToItsJobs(owner: DocId -> Tenant, w: World, r: RunId)
    requires Inv(owner, w) && r in w.runs && Key(w.runs[r].job) in w.keys
    ensures w.keys[Key(w.runs[r].job)] == w.runs[r].job.tenantId
  {
    var k := Key(w.runs[r].job);
    var i :| Ends(w, k, i) && w.keys[k] == owner(w.log[i].job.documentId);
    KeyIsInjective(w.log[i].job, w.runs[r].job);
    assert RunOk(owner, w, r);
  }

  /** At the commit of the key, the runs that sent and the runs that may still send are all open. */
  lemma ClaimMeetsBound(cap: nat, w: World, k: string)
    requires |w.runs| <= cap && k !in w.keys && Bound(cap, w, k)
    ensures w.sent[k] + |Members(w, k, MaySend)| <= cap
  {
    var sent, may := Members(w, k, HasSent), Members(w, k, MaySend);
    assert sent !! may && sent + may <= w.runs.Keys;
    SubsetSize(sent + may, w.runs.Keys);
  }

  lemma SubsetSize(a: set<RunId>, b: set<RunId>)
    requires a <= b
    ensures |a| <= |b|
  {
    assert b == a + (b - a);
  }

  /** A step of a run of another key leaves the key's sends, claim and members alone. */
  lemma OtherKeyKeepsBound(cap: nat, w: World, a: Action, k: string)
    requires Enabled(cap, w, a) && Bound(cap, w, k)
    requires a.run in w.runs ==> Key(w.runs[a.run].job) != k
    ensures Bound(cap, Next(cap, w, a), k)
  {
    StepShiftsMembers(cap, w, a, k, MaySend);
    StepShiftsMembers(cap, w, a, k, HasSent);
    OtherKeyStays(cap, w, a, k);
  }

  lemma OtherKeyStays(cap: nat, w: World, a: Action, k: string)
    requires Enabled(cap, w, a) && (a.run in w.runs ==> Key(w.runs[a.run].job) != k)
    ensures var w' := Next(cap, w, a);
      && w'.sent[k] == w.sent[k] && (k in w'.keys <==> k in w.keys)
      && Counts(w', a.run, k, MaySend) == Counts(w, a.run, k, MaySend) == 0
      && Counts(w', a.run, k, HasSent) == Counts(w, a.run, k, HasSent) == 0
  {
  }

  /** How one step of a run of key k shifts sends, and the runs that sent or may send, while k stays unclaimed. */
  lemma UnclaimedStep(cap: nat, owner: DocId -> Tenant, w: World, a: Action, k: string)
    requires Inv(owner, w) && Enabled(cap, w, a) && !a.Fault? && !a.Crash?
    requires a.run in w.runs && Key(w.runs[a.run].job) == k && k !in w.keys && k !in Next(cap, w, a).keys
    ensures var w' := Next(cap, w, a);
      w'.sent[k] - w.sent[k] == Counts(w', a.run, k, HasSent) - Counts(w, a.run, k, HasSent)
  {
    assert RunOk(owner, w, a.run);
    match a
    case Send(_, _) => UnclaimedSend(cap, w, a, k);
    case InsertLog(_) => UnclaimedRecord(cap, w, a, k);
    case ClaimKey(_) => UnclaimedRecord(cap, w, a, k);
    case _ => UnclaimedMove(cap, w, a, k);
  }

  lemma UnclaimedSend(cap: nat, w: World, a: Action, k: string)
    requires Enabled(cap, w, a) && a.Send? && Key(w.runs[a.run].job) == k
    ensures var w' := Next(cap, w, a);
      w'.sent[k] - w.sent[k] == Counts(w', a.run, k, HasSent) - Counts(w, a.run, k, HasSent)
  {
  }

  /** Recording or claiming a send does not change whether the run has sent. */
  lemma UnclaimedRecord(cap: nat, w: World, a: Action, k: string)
    requires Enabled(cap, w, a) && (a.InsertLog? || a.ClaimKey?) && Key(w.runs[a.run].job) == k && k !in w.keys
    requires var pc := w.runs[a.run].pc; pc.Unsendable? ==> pc.row.status == SUPPRESSED
    ensures var w' := Next(cap, w, a); w'.sent == w.sent && Counts(w', a.run, k, HasSent) == Counts(w, a.run, k, HasSent)
  {
  }

  /** The other statements are run by runs that have not sent, or end one that has nothing to claim. */
  lemma UnclaimedMove(cap: nat, w: World, a: Action, k: string)
    requires Enabled(cap, w, a) && !a.Fault? && !a.Crash? && !a.Send? && !a.InsertLog? && !a.ClaimKey?
    requires a.run in w.runs && Key(w.runs[a.run].job) == k && k !in Next(cap, w, a).keys
    ensures var w' := Next(cap, w, a);
      w'.sent == w.sent && Counts(w', a.run, k, HasSent) == Counts(w, a.run, k, HasSent) == 0
  {
  }

  lemma ClaimedStep(cap: nat, owner: DocId -> Tenant, w: World, a: Action, k: string)
    requires Inv(owner, w) && Enabled(cap, w, a)
    requires a.run in w.runs && Key(w.runs[a.run].job) == k && k in w.keys
    ensures var w' := Next(cap, w, a);
      k in w'.keys && w'.sent[k] - w.sent[k] <= Counts(w, a.run, k, MaySend) - Counts(w', a.run, k, MaySend)
  {
    KeyShowsToItsJobs(owner, w, a.run);
    KeysOnlyGrow(cap, w, a);
    assert RunOk(owner, w, a.run);
    ClaimedMove(cap, w, a, k);
  }

  lemma ClaimedMove(cap: nat, w: World, a: Action, k: string)
    requires Enabled(cap, w, a) && a.run in w.runs && Key(w.runs[a.run].job) == k
    requires k in w.keys && w.keys[k] == w.runs[a.run].job.tenantId
    ensures var w' := Next(cap, w, a);
      w'.sent[k] - w.sent[k] <= Counts(w, a.run, k, MaySend) - Counts(w', a.run, k, MaySend)
  {
  }

  lemma StepKeepsBound(cap: nat, owner: DocId -> Tenant, w: World, a: Action, k: string)
    requires Inv(owner, w) && Enabled(cap, w, a) && !a.Fault? && !a.Crash?
    requires |w.runs| <= cap && Bound(cap, w, k)
    ensures Bound(cap, Next(cap, w, a), k)
  {
    if a.run !in w.runs || Key(w.runs[a.run].job) != k {
      OtherKeyKeepsBound(cap, w, a, k);
    } else {
      StepShiftsMembers(cap, w, a, k, MaySend);
      StepShiftsMembers(cap, w, a, k, HasSent);
      if k in w.keys {
        ClaimedStep(cap, owner, w, a, k);
      } else if k in Next(cap, w, a).keys {
        ClaimingStep(cap, w, a, k);
      } else {
        UnclaimedStep(cap, owner, w, a, k);
      }
    }
  }

  lemma StepShiftsMembers(cap: nat, w: World, a: Action, k: string, at: Pc -> bool)
    requires Enabled(cap, w, a)
    ensures var w' := Next(cap, w, a);
      |Members(w', k, at)| == |Members(w, k, at)| - Counts(w, a.run, k, at) + Counts(w', a.run, k, at)
  {
    var w' := Next(cap, w, a);
    forall q | q != a.run ensures (q in w.runs <==> q in w'.runs) && (q in w.runs ==> w.runs[q] == w'.runs[q]) {
      if q in w.runs {
        OtherRunsStay(cap, w, a, q);
      }
    }
    MembersStep(w, w', a.run, k, at);
  }

  /** The commit that claims the key: all that sent, and all that may, are open then. */
  lemma ClaimingStep(cap: nat, w: World, a: Action, k: string)
    requires Enabled(cap, w, a) && |w.runs| <= cap && Bound(cap, w, k)
    requires a.run in w.runs && k !in w.keys && k in Next(cap, w, a).keys
    ensures Bound(cap, Next(cap, w, a), k)
  {
    ClaimMeetsBound(cap, w, k);
    assert Next(cap, w, a).sent == w.sent && Counts(Next(cap, w, a), a.run, k, MaySend) == 0;
    StepShiftsMembers(cap, w, a, k, MaySend);
  }

  lemma StepKeepsCap(cap: nat, w: World, a: Action)
    requires Enabled(cap, w, a) && |w.runs| <= cap
    ensures |Next(cap, w, a).runs| <= cap
  {
    var w' := Next(cap, w, a);
    if !a.Start? {
      assert w'.runs.Keys <= w.runs.Keys;
      SubsetSize(w'.runs.Keys, w.runs.Keys);
    }
  }

  lemma {:induction false} RunKeepsBound(cap: nat, owner: DocId -> Tenant, w: World, trace: seq<Action>, k: string)
    requires Inv(owner, w) && Legal(cap, w, trace) && ScannerMade(owner, trace) && FaultFree(trace)
    requires |w.runs| <= cap && Bound(cap, w, k)
    ensures Bound(cap, Exec(cap, w, trace), k) && |Exec(cap, w, trace).runs| <= cap
    decreases |trace|
  {
    if trace != [] {
      StepKeepsBound(cap, owner, w, trace[0], k);
      StepKeepsInv(cap, owner, w, trace[0]);
      StepKeepsCap(cap, w, trace[0]);
      RunKeepsBound(cap, owner, Next(cap, w, trace[0]), trace[1..], k);
    }
  }

  /**
    Without a crash or a database fault, at most five sends per worker process ever complete for one document
    and threshold, however often the job is enqueued or redelivered.
  */
  lemma DuplicateSendsAreBounded(processes: nat, owner: DocId -> Tenant, trace: seq<Action>, job: Job)
    requires Legal(processes * CONCURRENCY, EMPTY, trace) && ScannerMade(owner, trace) && FaultFree(trace)
    ensures Exec(processes * CONCURRENCY, EMPTY, trace).sent[Key(job)] <= 5 * processes
  {
    var cap := processes * CONCURRENCY;
    RunKeepsBound(cap, owner, EMPTY, trace, Key(job));
    var w := Exec(cap, EMPTY, trace);
    SubsetSize(Members(w, Key(job), HasSent), w.runs.Keys);
  }

  // ---- runs that check the key after it was committed ----

  /** The run is over, or it will find its key. */
  ghost predicate TooLate(w: World, r: RunId) {
    r in w.runs ==>
      Key(w.runs[r].job) in w.keys && w.runs[r].pc in {Begun, TenantActive, Replaying, Poisoned}
  }

  lemma StepKeepsTooLate(cap: nat, owner: DocId -> Tenant, w: World, a: Action, r: RunId)
    requires Inv(owner, w) && Enabled(cap, w, a) && TooLate(w, r)
    requires !a.Start? || a.run != r
    ensures TooLate(Next(cap, w, a), r) && !(a.Send? && a.run == r)
  {
    if r in w.runs {
      KeyShowsToItsJobs(owner, w, r);
      KeysOnlyGrow(cap, w, a);
      if a.run == r {
        LateRunStaysLate(cap, w, a);
      } else {
        OtherRunsStay(cap, w, a, r);
      }
    }
  }

  lemma KeysOnlyGrow(cap: nat, w: World, a: Action)
    requires Enabled(cap, w, a)
    ensures w.keys.Keys <= Next(cap, w, a).keys.Keys
  {
  }

  lemma OtherRunsStay(cap: nat, w: World, a: Action, r: RunId)
    requires Enabled(cap, w, a) && r in w.runs && r != a.run
    ensures r in Next(cap, w, a).runs && Next(cap, w, a).runs[r] == w.runs[r]
  {
  }

  /** A run that finds its committed key when it looks goes on to a replay or a rollback. */
  lemma LateRunStaysLate(cap: nat, w: World, a: Action)
    requires Enabled(cap, w, a) && a.run in w.runs && w.runs[a.run].pc in {Begun, TenantActive, Replaying, Poisoned}
    requires Key(w.runs[a.run].job) in w.keys && w.keys[Key(w.runs[a.run].job)] == w.runs[a.run].job.tenantId
    ensures !a.Send?
    ensures a.run in Next(cap, w, a).runs ==>
      && Next(cap, w, a).runs[a.run].pc in {Begun, TenantActive, Replaying, Poisoned}
      && Next(cap, w, a).runs[a.run].job == w.runs[a.run].job
  {
  }

  /** A run that has not checked its key when the key is committed never sends, in any continuation, faults included. */
  lemma {:induction false} LateRunsNeverSend(cap: nat, owner: DocId -> Tenant, w: World, trace: seq<Action>, r: RunId)
    requires Inv(owner, w) && Legal(cap, w, trace) && ScannerMade(owner, trace) && TooLate(w, r)
    requires forall a :: a in trace ==> !(a.Start? && a.run == r)
    ensures forall a :: a in trace ==> !(a.Send? && a.run == r)
    decreases |trace|
  {
    if trace != [] {
      MembersOfTail(trace);
      StepKeepsTooLate(cap, owner, w, trace[0], r);
      StepKeepsInv(cap, owner, w, trace[0]);
      LateRunsNeverSend(cap, owner, Next(cap, w, trace[0]), trace[1..], r);
    }
  }

  lemma MembersOfTail(trace: seq<Action>)
    requires trace != []
    ensures trace[0] in trace && forall a :: a in trace <==> a == trace[0] || a in trace[1..]
  {
    assert trace == [trace[0]] + trace[1..];
  }

  // ---- extending a run ----

  lemma {:induction false} ExecAppend(cap: nat, w: World, trace: seq<Action>, a: Action)
    requires Legal(cap, w, trace) && Enabled(cap, Exec(cap, w, trace), a)
    ensures Legal(cap, w, trace + [a]) && Exec(cap, w, trace + [a]) == Next(cap, Exec(cap, w, trace), a)
    decreases |trace|
  {
    if trace == [] {
      assert [a][1..] == [];
    } else {
      ExecAppend(cap, Next(cap, w, trace[0]), trace[1..], a);
      assert (trace + [a])[1..] == trace[1..] + [a];
    }
  }

  /** The trace is a run from the empty world, and it ends in w. */
  ghost predicate IsRun(cap: nat, trace: seq<Action>, w: World) {
    forall w0 {:trigger Legal(cap, w0, trace)} :: w0 == EMPTY ==> Legal(cap, w0, trace) && w == Exec(cap, w0, trace)
  }

  lemma RunAppend(cap: nat, trace: seq<Action>, w: World, a: Action)
    requires IsRun(cap, trace, w) && Enabled(cap, w, a)
    ensures IsRun(cap, trace + [a], Next(cap, w, a))
  {
    assert Legal(cap, EMPTY, trace);
    ExecAppend(cap, EMPTY, trace, a);
  }

  lemma Extend(cap: nat, trace: seq<Action>, w: World, a: Action) returns (trace': seq<Action>, w': World)
    requires IsRun(cap, trace, w) && Enabled(cap, w, a)
    ensures trace' == trace + [a] && w' == Next(cap, w, a) && IsRun(cap, trace', w')
  {
    RunAppend(cap, trace, w, a);
    trace', w' := trace + [a], Next(cap, w, a);
  }

  /** The statements of a copy of a job up to its completed send. */
  function SendingSteps(job: Job, r: RunId): seq<Action> {
    [Start(r, job), CheckTenant(r, true), CheckKey(r)] + [FindDocument(r, WithEmail), Send(r, true)]
  }

  /** One more copy of the job runs up to its completed send. */
  lemma SendOnce(cap: nat, trace0: seq<Action>, w0: World, job: Job, r: RunId) returns (trace: seq<Action>, w: World)
    requires IsRun(cap, trace0, w0) && r !in w0.runs && |w0.runs| < cap && Key(job) !in w0.keys
    ensures IsRun(cap, trace, w) && trace == trace0 + SendingSteps(job, r)
    ensures w == w0.(runs := w0.runs[r := Run(job, SendDone)], sent := w0.sent + multiset{Key(job)})
  {
    trace, w := CheckOnce(cap, trace0, w0, job, r);
    trace, w := Extend(cap, trace, w, FindDocument(r, WithEmail));
    trace, w := Extend(cap, trace, w, Send(r, true));
  }

  /** One more copy of the job finds its key free. */
  lemma CheckOnce(cap: nat, trace0: seq<Action>, w0: World, job: Job, r: RunId) returns (trace: seq<Action>, w: World)
    requires IsRun(cap, trace0, w0) && r !in w0.runs && |w0.runs| < cap && Key(job) !in w0.keys
    ensures IsRun(cap, trace, w) && trace == trace0 + [Start(r, job), CheckTenant(r, true), CheckKey(r)]
    ensures w == w0.(runs := w0.runs[r := Run(job, KeyFree)])
  {
    trace, w := Extend(cap, trace0, w0, Start(r, job));
    trace, w := Extend(cap, trace, w, CheckTenant(r, true));
    trace, w := Extend(cap, trace, w, CheckKey(r));
  }

  /**
    After any run, a reminder that has only FAILED rows has its key free: one more copy of its job, if the worker has
    room for it, finds no key and sends again. So a scan later the same day does repeat a failed reminder.
  */
  lemma FailedReminderIsSentAgain(cap: nat, owner: DocId -> Tenant, trace0: seq<Action>, job: Job, r: RunId)
    requires Legal(cap, EMPTY, trace0) && ScannerMade(owner, trace0)
    requires var w := Exec(cap, EMPTY, trace0);
      && r !in w.runs && |w.runs| < cap
      && forall e :: e in w.log && Key(e.job) == Key(job) ==> e.row.status == FAILED
    ensures Key(job) !in Exec(cap, EMPTY, trace0).keys
    ensures var trace := trace0 + SendingSteps(job, r);
      Legal(cap, EMPTY, trace) && Exec(cap, EMPTY, trace).sent[Key(job)] == Exec(cap, EMPTY, trace0).sent[Key(job)] + 1
  {
    var w0 := Exec(cap, EMPTY, trace0);
    FailedLeavesKeyFree(cap, owner, trace0, job);
    var trace, w := SendOnce(cap, trace0, w0, job, r);
    assert Legal(cap, EMPTY, trace) && w == Exec(cap, EMPTY, trace);
  }

  lemma FailedLeavesKeyFree(cap: nat, owner: DocId -> Tenant, trace: seq<Action>, job: Job)
    requires Legal(cap, EMPTY, trace) && ScannerMade(owner, trace)
    requires forall e :: e in Exec(cap, EMPTY, trace).log && Key(e.job) == Key(job) ==> e.row.status == FAILED
    ensures Key(job) !in Exec(cap, EMPTY, trace).keys
  {
    RunKeepsInv(cap, owner, EMPTY, trace);
    KeyHasTerminalRow(owner, Exec(cap, EMPTY, trace), Key(job));
  }

  lemma KeyHasTerminalRow(owner: DocId -> Tenant, w: World, k: string)
    requires LogOk(owner, w)
    ensures k in w.keys ==> exists e :: e in w.log && e.row.Terminal() && Key(e.job) == k
  {
    if k in w.keys {
      var i :| Ends(w, k, i) && w.keys[k] == owner(w.log[i].job.documentId);
      assert w.log[i] in w.log;
    }
  }

  lemma {:induction false} SendMany(cap: nat, job: Job, n: nat) returns (trace: seq<Action>, w: World)
    requires n <= cap
    ensures IsRun(cap, trace, w) && FaultFree(trace) && forall a :: a in trace && a.Start? ==> a.job == job
    ensures w.sent[Key(job)] == n && w.keys == map[] && |w.runs| == n && forall r :: r in w.runs ==> r < n
  {
    trace, w := [], EMPTY;
    if n > 0 {
      trace, w := SendMany(cap, job, n - 1);
      trace, w := SendOnce(cap, trace, w, job, n - 1);
    }
  }

  /** The bound is exact: `cap` copies that all check before one of them commits do send `cap` times. */
  lemma BoundIsReached(cap: nat, job: Job, n: nat) returns (trace: seq<Action>)
    requires n <= cap
    ensures Legal(cap, EMPTY, trace) && FaultFree(trace) && ScannerMade((d: DocId) => job.tenantId, trace)
    ensures Exec(cap, EMPTY, trace).sent[Key(job)] == n
  {
    var w;
    trace, w := SendMany(cap, job, n);
    assert Legal(cap, EMPTY, trace);
  }

  // ---- the worker ----

  datatype Outcome = Rejected | Replayed | Suppressed | Sent | Failed

  /** The one row of a job that was not rejected or replayed. */
  function RowOf(job: Job, outcome: Outcome, found: Lookup): LogRow {
    match outcome
    case Sent => LogRow(Some(job.documentId), job.daysBeforeExpiry, SENT)
    case Failed => LogRow(Some(job.documentId), job.daysBeforeExpiry, FAILED)
    case _ => LogRow(if found == Missing then None else Some(job.documentId), job.daysBeforeExpiry, SUPPRESSED)
  }

  /** The worker's side of the database, updated one statement at a time. */
  class ReminderWorker {
    const cap: nat
    var log: seq<Entry>
    var keys: map<string, Tenant>
    var holders: map<string, RunId>
    var runs: map<RunId, Run>
    var sent: multiset<string>
    ghost var trace: seq<Action>

    ghost function Snapshot(): World
      reads this
    {
      World(log, keys, holders, runs, sent)
    }

    ghost predicate Valid()
      reads this
    {
      IsRun(cap, trace, Snapshot())
    }

    constructor (cap: nat)
      ensures Valid() && this.cap == cap && Snapshot() == EMPTY
    {
      this.cap := cap;
      log, keys, holders, runs, sent, trace := [], map[], map[], map[], multiset{}, [];
    }

    twostate predicate Performed(a: Action)
      requires old(Valid()) && Enabled(cap, old(Snapshot()), a)
      reads this
    {
      Valid() && trace == old(trace) + [a] && Snapshot() == Next(cap, old(Snapshot()), a)
    }

    ghost method Record(a: Action, w: World)
      requires IsRun(cap, trace, w) && Enabled(cap, w, a) && Snapshot() == Next(cap, w, a)
      modifies this`trace
      ensures Valid() && trace == old(trace) + [a]
    {
      RunAppend(cap, trace, w, a);
      trace := trace + [a];
    }

    method Start(r: RunId, job: Job)
      requires Valid() && Enabled(cap, Snapshot(), Action.Start(r, job))
      modifies this
      ensures Performed(Action.Start(r, job))
    {
      ghost var w := Snapshot();
      runs := runs[r := Run(job, Begun)];
      Record(Action.Start(r, job), w);
    }

    method CheckTenant(r: RunId, active: bool)
      requires Valid() && Enabled(cap, Snapshot(), Action.CheckTenant(r, active))
      modifies this
      ensures Performed(Action.CheckTenant(r, active))
    {
      ghost var w := Snapshot();
      if active {
        runs := runs[r := runs[r].(pc := TenantActive)];
      } else {
        runs := runs - {r};
      }
      Record(Action.CheckTenant(r, active), w);
    }

    method CheckKey(r: RunId) returns (existing: bool)
      requires Valid() && Enabled(cap, Snapshot(), Action.CheckKey(r))
      modifies this
      ensures Performed(Action.CheckKey(r)) && existing == At(Snapshot(), r, Replaying)
    {
      ghost var w := Snapshot();
      var job := runs[r].job;
      existing := Key(job) in keys && keys[Key(job)] == job.tenantId;
      runs := runs[r := Run(job, if existing then Replaying else KeyFree)];
      Record(Action.CheckKey(r), w);
    }

    method FindDocument(r: RunId, found: Lookup)
      requires Valid() && Enabled(cap, Snapshot(), Action.FindDocument(r, found))
      modifies this
      ensures Performed(Action.FindDocument(r, found))
    {
      ghost var w := Snapshot();
      var job := runs[r].job;
      match found {
        case Missing => runs := runs[r := Run(job, Unsendable(LogRow(None, job.daysBeforeExpiry, SUPPRESSED)))];
        case WithoutEmail => runs := runs[r := Run(job, Unsendable(LogRow(Some(job.documentId), job.daysBeforeExpiry, SUPPRESSED)))];
        case WithEmail => runs := runs[r := Run(job, Ready)];
      }
      Record(Action.FindDocument(r, found), w);
    }

    method Send(r: RunId, ok: bool)
      requires Valid() && Enabled(cap, Snapshot(), Action.Send(r, ok))
      modifies this
      ensures Performed(Action.Send(r, ok))
    {
      ghost var w := Snapshot();
      var job := runs[r].job;
      if ok {
        sent := sent + multiset{Key(job)};
        runs := runs[r := Run(job, SendDone)];
      } else {
        runs := runs[r := Run(job, SendThrew)];
      }
      Record(Action.Send(r, ok), w);
    }

    method InsertLog(r: RunId, row: LogRow)
      requires Valid() && Enabled(cap, Snapshot(), Action.InsertLog(r)) && row == RowFor(runs[r].job, runs[r].pc)
      modifies this
      ensures Performed(Action.InsertLog(r))
    {
      ghost var w := Snapshot();
      runs := runs[r := Run(runs[r].job, Logged(row))];
      Record(Action.InsertLog(r), w);
    }

    method ClaimKey(r: RunId) returns (ok: bool)
      requires Valid() && Enabled(cap, Snapshot(), Action.ClaimKey(r))
      modifies this
      ensures Performed(Action.ClaimKey(r)) && ok == (Key(old(runs)[r].job) !in old(keys))
    {
      ghost var w := Snapshot();
      var job, row := runs[r].job, runs[r].pc.row;
      ok := Key(job) !in keys;
      if ok {
        holders := holders[Key(job) := r];
        runs := runs[r := Run(job, Claimed(row))];
      } else {
        runs := runs[r := Run(job, Poisoned)];
      }
      Record(Action.ClaimKey(r), w);
    }

    method Commit(r: RunId)
      requires Valid() && Enabled(cap, Snapshot(), Action.Commit(r))
      modifies this
      ensures Performed(Action.Commit(r))
    {
      ghost var w := Snapshot();
      var job, pc := runs[r].job, runs[r].pc;
      if pc != Replaying {
        log := log + [Entry(job, pc.row)];
      }
      if pc.Claimed? {
        keys := keys[Key(job) := job.tenantId];
        holders := holders - {Key(job)};
      }
      runs := runs - {r};
      assert Snapshot() == Next(cap, w, Action.Commit(r));
      Record(Action.Commit(r), w);
    }

    method FailOut(r: RunId)
      requires Valid() && Enabled(cap, Snapshot(), Action.FailOut(r))
      modifies this
      ensures Performed(Action.FailOut(r))
    {
      ghost var w := Snapshot();
      runs := runs - {r};
      Record(Action.FailOut(r), w);
    }

    /**
      The job body as it runs when no other transaction holds the key: what it finds decides which one row it
      adds and whether it claims the key.
    */
    method ProcessJob(r: RunId, job: Job, active: bool, found: Lookup, sendOk: bool) returns (outcome: Outcome)
      requires Valid() && r !in runs && |runs| < cap && Key(job) !in holders
      requires Key(job) in keys ==> keys[Key(job)] == job.tenantId
      modifies this
      ensures Valid() && old(trace) <= trace && runs == old(runs) && holders == old(holders)
      ensures outcome ==
        if !active then Rejected else if Key(job) in old(keys) then Replayed
        else if found != WithEmail then Suppressed else if sendOk then Sent else Failed
      ensures log == old(log) + (if outcome == Rejected || outcome == Replayed then [] else [Entry(job, RowOf(job, outcome, found))])
      ensures keys == if outcome == Suppressed || outcome == Sent then old(keys)[Key(job) := job.tenantId] else old(keys)
      ensures sent == if outcome == Sent then old(sent) + multiset{Key(job)} else old(sent)
      ensures outcome == Suppressed ==>
        log[|log| - 1].row == LogRow(if found == Missing then None else Some(job.documentId), job.daysBeforeExpiry, SUPPRESSED)
      ensures outcome == Sent ==> log[|log| - 1].row == LogRow(Some(job.documentId), job.daysBeforeExpiry, SENT)
      ensures outcome == Failed ==> log[|log| - 1].row == LogRow(Some(job.documentId), job.daysBeforeExpiry, FAILED)
    {
      Open(r, job, active);
      if !active {
        return Rejected;
      }
      var existing := Admit(r);
      if existing {
        return Replayed;
      }
      outcome := Dispatch(r, found, sendOk);
    }

    /** BEGIN and the tenant check. */
    method Open(r: RunId, job: Job, active: bool)
      requires Valid() && r !in runs && |runs| < cap
      modifies this
      ensures Valid() && old(trace) <= trace
      ensures Snapshot() == old(Snapshot()).(runs := if active then old(runs)[r := Run(job, TenantActive)] else old(runs))
    {
      Start(r, job);
      assert runs == old(runs)[r := Run(job, Begun)];
      CheckTenant(r, active);
      assert runs == if active then old(runs)[r := Run(job, TenantActive)] else old(runs);
    }

    /** The key check; a run that finds its key commits without writing. */
    method Admit(r: RunId) returns (existing: bool)
      requires Valid() && At(Snapshot(), r, TenantActive)
      modifies this
      ensures Valid() && old(trace) <= trace
      ensures var job := old(runs)[r].job;
        && existing == (Key(job) in old(keys) && old(keys)[Key(job)] == job.tenantId)
        && Snapshot() == old(Snapshot()).(runs := if existing then old(runs) - {r} else old(runs)[r := Run(job, KeyFree)])
    {
      existing := CheckKey(r);
      if existing {
        Commit(r);
        assert runs == old(runs) - {r};
      }
    }

    /** From the document query on. */
    method Dispatch(r: RunId, found: Lookup, sendOk: bool) returns (outcome: Outcome)
      requires Valid() && At(Snapshot(), r, KeyFree) && Key(runs[r].job) !in holders && Key(runs[r].job) !in keys
      modifies this
      ensures Valid() && old(trace) <= trace
      ensures outcome == if found != WithEmail then Suppressed else if sendOk then Sent else Failed
      ensures var job := old(runs)[r].job;
        Snapshot() == Recorded(AfterSend(old(Snapshot()), job, outcome == Sent), r, RowOf(job, outcome, found))
    {
      var job := runs[r].job;
      ghost var w := Snapshot();
      FindDocument(r, found);
      if found == WithEmail {
        outcome := Deliver(r, sendOk);
      } else {
        outcome := RecordAndClaim(r, RowOf(job, Suppressed, found));
      }
      assert Snapshot().runs == w.runs - {r};
    }

    /** The try and catch blocks. */
    method Deliver(r: RunId, sendOk: bool) returns (outcome: Outcome)
      requires Valid() && At(Snapshot(), r, Ready) && Key(runs[r].job) !in holders && Key(runs[r].job) !in keys
      modifies this
      ensures Valid() && old(trace) <= trace
      ensures outcome == if sendOk then Sent else Failed
      ensures var job := old(runs)[r].job;
        Snapshot() == Recorded(AfterSend(old(Snapshot()), job, sendOk), r, RowOf(job, outcome, WithEmail))
    {
      var job := runs[r].job;
      ghost var w := Snapshot();
      Send(r, sendOk);
      if sendOk {
        outcome := RecordAndClaim(r, LogRow(Some(job.documentId), job.daysBeforeExpiry, SENT));
      } else {
        RecordFailure(r);
        outcome := Failed;
      }
      assert Snapshot().runs == w.runs - {r};
    }

    /** The catch block: a FAILED row, and no key. */
    method RecordFailure(r: RunId)
      requires Valid() && At(Snapshot(), r, SendThrew)
      modifies this
      ensures Valid() && old(trace) <= trace
      ensures var job := old(runs)[r].job;
        Snapshot() == Recorded(old(Snapshot()), r, LogRow(Some(job.documentId), job.daysBeforeExpiry, FAILED))
    {
      ghost var w := Snapshot();
      InsertLog(r, LogRow(Some(runs[r].job.documentId), runs[r].job.daysBeforeExpiry, FAILED));
      Commit(r);
      assert Snapshot().runs == w.runs - {r};
    }

    /** The two inserts of a terminal outcome and the commit; a unique violation rolls everything back. */
    method RecordAndClaim(r: RunId, row: LogRow) returns (outcome: Outcome)
      requires Valid() && Enabled(cap, Snapshot(), Action.InsertLog(r)) && row == RowFor(runs[r].job, runs[r].pc)
      requires row.Terminal() && Key(runs[r].job) !in holders
      modifies this
      ensures Valid() && old(trace) <= trace
      ensures var w := old(Snapshot()); var free := Key(w.runs[r].job) !in w.keys;
        && outcome == (if !free then Rejected else if row.status == SENT then Sent else Suppressed)
        && Snapshot() == if free then Recorded(w, r, row) else w.(runs := w.runs - {r})
    {
      ghost var w := Snapshot();
      InsertLog(r, row);
      outcome := ClaimAndCommit(r);
      assert Snapshot().runs == w.runs - {r};
    }

    method ClaimAndCommit(r: RunId) returns (outcome: Outcome)
      requires Valid() && Enabled(cap, Snapshot(), Action.ClaimKey(r))
      modifies this
      ensures Valid() && old(trace) <= trace
      ensures var w := old(Snapshot()); var row := w.runs[r].pc.row; var free := Key(w.runs[r].job) !in w.keys;
        && outcome == (if !free then Rejected else if row.status == SENT then Sent else Suppressed)
        && Snapshot() == if free then Recorded(w, r, row) else w.(runs := w.runs - {r})
    {
      ghost var w := Snapshot();
      outcome := if runs[r].pc.row.status == SENT then Sent else Suppressed;
      var ok := ClaimKey(r);
      if ok {
        Commit(r);
        assert holders == w.holders;
      } else {
        FailOut(r);
        outcome := Rejected;
      }
      assert runs == w.runs - {r};
    }
  }

  /** The world after run r, which held no key yet, has committed its row, and its key if the row is terminal. */
  function Recorded(w: World, r: RunId, row: LogRow): World
    requires r in w.runs
  {
    var job := w.runs[r].job;
    w.(runs := w.runs - {r}, log := w.log + [Entry(job, row)],
       keys := if row.Terminal() then w.keys[Key(job) := job.tenantId] else w.keys)
  }

  function AfterSend(w: World, job: Job, completed: bool): World {
    if completed then w.(sent := w.sent + multiset{Key(job)}) else w
  }
}
