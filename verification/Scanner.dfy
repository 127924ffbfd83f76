/**
  The daily reminder scan: per active tenant, one job for each EXPIRING_SOON document that is exactly a
  configured number of days before its expiry and has no SENT row for that number.
*/
module Scanner {
  import opened Wrappers
  import opened Calendar
  import opened Expiry
  import RowLocking
  import Documents
  import Decimal
  import opened Reminders

  const DEFAULT_REMINDER_DAYS_BEFORE := [90, 60, 30, 14, 7, 1]

  datatype NotificationPolicy = NotificationPolicy(enabled: bool, reminderDaysBefore: seq<int>)

  datatype ScanDoc = ScanDoc(
    id: DocId, tenantId: Tenant, expiryDate: Option<string>, expiryStatus: ExpiryStatus, deleted: bool)

  /** What the clock and the committed notification_log of the tenant show while one candidate is handled. */
  datatype Moment = Moment(now: Clock, log: seq<LogRow>)

  /**
    What the statements of one tenant's transaction see. Each statement sees the tables as committed when it
    runs, so the clock and the log belong to the candidate at hand.
  */
  datatype TenantView = TenantView(
    stillActive: bool, policy: Option<NotificationPolicy>, documents: seq<ScanDoc>, during: nat -> Moment)

  /** The first configured threshold that equals the day count; none if the count is not a threshold. */
  function MatchReminderThreshold(daysUntilExpiry: int, thresholds: seq<int>): (r: Option<int>)
    ensures r == if daysUntilExpiry in thresholds then Some(daysUntilExpiry) else None
  {
    if thresholds == [] then None
    else if thresholds[0] == daysUntilExpiry then Some(thresholds[0])
    else MatchReminderThreshold(daysUntilExpiry, thresholds[1..])
  }

  predicate AlreadySent(log: seq<LogRow>, id: DocId, threshold: int) {
    LogRow(Some(id), threshold, SENT) in log
  }

  predicate IsCandidate(tenant: Tenant, doc: ScanDoc) {
    doc.tenantId == tenant && !doc.deleted && doc.expiryDate.Some? && doc.expiryStatus == EXPIRING_SOON
  }

  function Candidates(tenant: Tenant, docs: seq<ScanDoc>): (r: seq<ScanDoc>)
    ensures forall d :: d in r <==> d in docs && IsCandidate(tenant, d)
  {
    if docs == [] then [] else
      Candidates(tenant, docs[..|docs| - 1]) + (if IsCandidate(tenant, docs[|docs| - 1]) then [docs[|docs| - 1]] else [])
  }

  function Thresholds(policy: Option<NotificationPolicy>): seq<int> {
    if policy.Some? then policy.value.reminderDaysBefore else DEFAULT_REMINDER_DAYS_BEFORE
  }

  predicate Scans(view: TenantView) {
    view.stillActive && (view.policy.Some? ==> view.policy.value.enabled)
  }

  /** The day count of a candidate; the empty string is skipped and NaN matches no threshold. */
  function DaysLeft(doc: ScanDoc, now: Clock): Option<int> {
    if doc.expiryDate.None? || doc.expiryDate.value == "" then None
    else CalendarDaysUntil(Text(doc.expiryDate.value), now)
  }

  predicate Due(doc: ScanDoc, thresholds: seq<int>, at: Moment, threshold: int) {
    DaysLeft(doc, at.now) == Some(threshold) && threshold in thresholds && !AlreadySent(at.log, doc.id, threshold)
  }

  /** The job of one candidate, if any. */
  function JobOf(tenant: Tenant, doc: ScanDoc, thresholds: seq<int>, at: Moment): seq<Job> {
    var days := DaysLeft(doc, at.now);
    if days.Some? && Due(doc, thresholds, at, days.value) then [Job(tenant, doc.id, days.value)] else []
  }

  function JobsOf(tenant: Tenant, docs: seq<ScanDoc>, thresholds: seq<int>, during: nat -> Moment): seq<Job> {
    if docs == [] then [] else
      var n := |docs| - 1;
      JobsOf(tenant, docs[..n], thresholds, during) + JobOf(tenant, docs[n], thresholds, during(n))
  }

  function TenantJobs(tenant: Tenant, view: TenantView): seq<Job> {
    if Scans(view) then JobsOf(tenant, Candidates(tenant, view.documents), Thresholds(view.policy), view.during) else []
  }

  function AllJobs(tenants: seq<Tenant>, views: Tenant -> TenantView): seq<Job> {
    if tenants == [] then [] else
      AllJobs(tenants[..|tenants| - 1], views) + TenantJobs(tenants[|tenants| - 1], views(tenants[|tenants| - 1]))
  }

  lemma JobsOfStep(tenant: Tenant, docs: seq<ScanDoc>, thresholds: seq<int>, during: nat -> Moment, k: nat)
    requires k < |docs|
    ensures JobsOf(tenant, docs[..k + 1], thresholds, during)
         == JobsOf(tenant, docs[..k], thresholds, during) + JobOf(tenant, docs[k], thresholds, during(k))
  {
    assert docs[..k + 1][..k] == docs[..k];
  }

  lemma AllJobsStep(tenants: seq<Tenant>, views: Tenant -> TenantView, i: nat)
    requires i < |tenants|
    ensures AllJobs(tenants[..i + 1], views) == AllJobs(tenants[..i], views) + TenantJobs(tenants[i], views(tenants[i]))
  {
    assert tenants[..i + 1][..i] == tenants[..i];
  }

  /** The branches of the loop body. */
  lemma JobOfCases(tenant: Tenant, doc: ScanDoc, thresholds: seq<int>, at: Moment)
    ensures var days := DaysLeft(doc, at.now);
      JobOf(tenant, doc, thresholds, at)
        == if days.None? || MatchReminderThreshold(days.value, thresholds).None? || AlreadySent(at.log, doc.id, days.value) then []
           else [Job(tenant, doc.id, days.value)]
  {
  }

  lemma JoinNext(queue: seq<Job>, tenants: seq<Tenant>, views: Tenant -> TenantView, i: nat)
    requires i < |tenants|
    ensures queue + AllJobs(tenants[..i], views) + TenantJobs(tenants[i], views(tenants[i]))
         == queue + AllJobs(tenants[..i + 1], views)
  {
    AllJobsStep(tenants, views, i);
  }

  class ReminderScanner {
    /** The send-reminder queue. */
    var queue: seq<Job>

    method ScanTenant(tenant: Tenant, view: TenantView)
      modifies this
      ensures queue == old(queue) + TenantJobs(tenant, view)
      ensures forall job :: job in queue[|old(queue)|..] <==> Queued(tenant, view, job)
    {
      forall job ensures job in TenantJobs(tenant, view) <==> Queued(tenant, view, job) {
        ScanMeans(tenant, view, job);
      }
      if !view.stillActive {
        return;
      }
      if view.policy.Some? && !view.policy.value.enabled {
        return;
      }
      var thresholds := Thresholds(view.policy);
      var candidates := Candidates(tenant, view.documents);
      for k := 0 to |candidates|
        invariant queue == old(queue) + JobsOf(tenant, candidates[..k], thresholds, view.during)
      {
        var doc, at := candidates[k], view.during(k);
        JobsOfStep(tenant, candidates, thresholds, view.during, k);
        JobOfCases(tenant, doc, thresholds, at);
        var days := DaysLeft(doc, at.now);
        if days.None? {
          continue;
        }
        var threshold := MatchReminderThreshold(days.value, thresholds);
        if threshold.None? {
          continue;
        }
        if AlreadySent(at.log, doc.id, threshold.value) {
          continue;
        }
        queue := queue + [Job(tenant, doc.id, threshold.value)];
      }
      assert candidates[..|candidates|] == candidates;
    }

    method Scan(activeTenants: seq<Tenant>, views: Tenant -> TenantView)
      modifies this
      ensures queue == old(queue) + AllJobs(activeTenants, views)
      ensures forall job :: job in queue[|old(queue)|..] <==> job.tenantId in activeTenants && Queued(job.tenantId, views(job.tenantId), job)
    {
      forall job
        ensures job in AllJobs(activeTenants, views) <==> job.tenantId in activeTenants && Queued(job.tenantId, views(job.tenantId), job)
      {
        ScansMean(activeTenants, views, job);
      }
      for i := 0 to |activeTenants|
        invariant queue == old(queue) + AllJobs(activeTenants[..i], views)
      {
        ScanTenant(activeTenants[i], views(activeTenants[i]));
        JoinNext(old(queue), activeTenants, views, i);
      }
      assert activeTenants[..|activeTenants|] == activeTenants;
    }
  }

  // ---- exactness ----

  predicate DistinctIds(docs: seq<ScanDoc>) {
    forall i, j :: 0 <= i < j < |docs| ==> docs[i].id != docs[j].id
  }

  lemma {:induction false} CandidatesAreDistinct(tenant: Tenant, docs: seq<ScanDoc>)
    requires DistinctIds(docs)
    ensures DistinctIds(Candidates(tenant, docs))
  {
    if docs != [] {
      var front := docs[..|docs| - 1];
      CandidatesAreDistinct(tenant, front);
      forall d | d in Candidates(tenant, front) ensures d.id != docs[|docs| - 1].id {
        var i :| 0 <= i < |front| && front[i] == d;
      }
    }
  }

  lemma JobOfCount(tenant: Tenant, doc: ScanDoc, thresholds: seq<int>, at: Moment, job: Job)
    ensures multiset(JobOf(tenant, doc, thresholds, at))[job]
         == if job.tenantId == tenant && job.documentId == doc.id && Due(doc, thresholds, at, job.daysBeforeExpiry) then 1 else 0
  {
  }

  lemma JobsCountSplits(tenant: Tenant, docs: seq<ScanDoc>, thresholds: seq<int>, during: nat -> Moment, job: Job)
    requires docs != []
    ensures var n := |docs| - 1;
      multiset(JobsOf(tenant, docs, thresholds, during))[job]
        == multiset(JobsOf(tenant, docs[..n], thresholds, during))[job]
           + (if job.tenantId == tenant && job.documentId == docs[n].id && Due(docs[n], thresholds, during(n), job.daysBeforeExpiry)
              then 1 else 0)
  {
    JobOfCount(tenant, docs[|docs| - 1], thresholds, during(|docs| - 1), job);
  }

  /** How many candidates of an id are due, for any notion of being due at a turn. */
  function Hits(docs: seq<ScanDoc>, id: DocId, due: (ScanDoc, nat) -> bool): nat {
    if docs == [] then 0 else
      var n := |docs| - 1;
      Hits(docs[..n], id, due) + if docs[n].id == id && due(docs[n], n) then 1 else 0
  }

  lemma {:induction false} NoHitsForOthers(docs: seq<ScanDoc>, id: DocId, due: (ScanDoc, nat) -> bool)
    requires forall i :: 0 <= i < |docs| ==> docs[i].id != id
    ensures Hits(docs, id, due) == 0
  {
    if docs != [] {
      NoHitsForOthers(docs[..|docs| - 1], id, due);
    }
  }

  predicate SomeHit(docs: seq<ScanDoc>, id: DocId, due: (ScanDoc, nat) -> bool) {
    exists k :: 0 <= k < |docs| && docs[k].id == id && due(docs[k], k)
  }

  lemma {:induction false} AtMostOneHit(docs: seq<ScanDoc>, id: DocId, due: (ScanDoc, nat) -> bool)
    requires DistinctIds(docs)
    ensures Hits(docs, id, due) == if SomeHit(docs, id, due) then 1 else 0
  {
    if docs != [] {
      var n := |docs| - 1;
      AtMostOneHit(docs[..n], id, due);
      if docs[n].id == id {
        NoHitsForOthers(docs[..n], id, due);
      }
    }
  }

  function DueFor(thresholds: seq<int>, during: nat -> Moment, threshold: int): (ScanDoc, nat) -> bool {
    (doc: ScanDoc, k: nat) => Due(doc, thresholds, during(k), threshold)
  }

  lemma {:induction false} JobsAreHits(tenant: Tenant, docs: seq<ScanDoc>, thresholds: seq<int>, during: nat -> Moment, job: Job)
    ensures multiset(JobsOf(tenant, docs, thresholds, during))[job]
         == if job.tenantId == tenant then Hits(docs, job.documentId, DueFor(thresholds, during, job.daysBeforeExpiry)) else 0
  {
    if docs != [] {
      JobsAreHits(tenant, docs[..|docs| - 1], thresholds, during, job);
      JobsCountSplits(tenant, docs, thresholds, during, job);
    }
  }

  /** Some candidate asks for the job when its turn comes. */
  predicate Wanted(docs: seq<ScanDoc>, thresholds: seq<int>, during: nat -> Moment, job: Job) {
    exists k :: 0 <= k < |docs| && docs[k].id == job.documentId && Due(docs[k], thresholds, during(k), job.daysBeforeExpiry)
  }

  lemma HitMeansWanted(docs: seq<ScanDoc>, thresholds: seq<int>, during: nat -> Moment, job: Job)
    ensures SomeHit(docs, job.documentId, DueFor(thresholds, during, job.daysBeforeExpiry))
       <==> Wanted(docs, thresholds, during, job)
  {
    var due := DueFor(thresholds, during, job.daysBeforeExpiry);
    if k :| 0 <= k < |docs| && docs[k].id == job.documentId && Due(docs[k], thresholds, during(k), job.daysBeforeExpiry) {
      assert due(docs[k], k);
    }
    if k :| 0 <= k < |docs| && docs[k].id == job.documentId && due(docs[k], k) {
      assert Due(docs[k], thresholds, during(k), job.daysBeforeExpiry);
    }
  }

  lemma JobsAreExact(tenant: Tenant, docs: seq<ScanDoc>, thresholds: seq<int>, during: nat -> Moment, job: Job)
    requires DistinctIds(docs)
    ensures multiset(JobsOf(tenant, docs, thresholds, during))[job]
         == if job.tenantId == tenant && Wanted(docs, thresholds, during, job) then 1 else 0
  {
    JobsAreHits(tenant, docs, thresholds, during, job);
    AtMostOneHit(docs, job.documentId, DueFor(thresholds, during, job.daysBeforeExpiry));
    HitMeansWanted(docs, thresholds, during, job);
  }

  /**
    A scan of a tenant enqueues exactly one job for each live EXPIRING_SOON document of the tenant that is, when
    its turn comes, a configured number of days before its expiry without a SENT row; nothing for any other
    document, and nothing at all for an inactive tenant or a disabled policy.
  */
  lemma ScanIsExact(tenant: Tenant, view: TenantView, job: Job)
    requires DistinctIds(view.documents)
    ensures multiset(TenantJobs(tenant, view))[job] == if Queued(tenant, view, job) then 1 else 0
  {
    WantedIffAsked(tenant, view, job);
    CandidatesAreDistinct(tenant, view.documents);
    JobsAreExact(tenant, Candidates(tenant, view.documents), Thresholds(view.policy), view.during, job);
  }

  // ---- what a scan queues, document by document ----

  /** How many documents before position i the scan handles first. */
  function Turn(tenant: Tenant, docs: seq<ScanDoc>, i: nat): nat
    requires i <= |docs|
  {
    if i == 0 then 0 else
      var doc := docs[i - 1];
      Turn(tenant, docs, i - 1)
      + if doc.tenantId == tenant && !doc.deleted && doc.expiryDate.Some? && doc.expiryStatus == EXPIRING_SOON then 1 else 0
  }

  /**
    Document i asks for the job: it is the tenant's, live and expiring soon, has a date that is the job's number of days
    away when its turn comes, that number is one of the policy's or of the built-in ones, and no such reminder was sent.
  */
  ghost predicate Asks(tenant: Tenant, view: TenantView, i: nat, job: Job)
    requires i < |view.documents|
  {
    var doc := view.documents[i];
    var at := view.during(Turn(tenant, view.documents, i));
    && doc.id == job.documentId && doc.tenantId == tenant && !doc.deleted && doc.expiryStatus == EXPIRING_SOON
    && doc.expiryDate.Some? && doc.expiryDate.value != "" && UtcMidnightMillis(Text(doc.expiryDate.value)).Some?
    && DayOfValue(Text(doc.expiryDate.value)) - DayOf(at.now) == job.daysBeforeExpiry
    && job.daysBeforeExpiry in (if view.policy.Some? then view.policy.value.reminderDaysBefore else [90, 60, 30, 14, 7, 1])
    && LogRow(Some(doc.id), job.daysBeforeExpiry, SENT) !in at.log
  }

  /** The tenant is active, its policy does not disable reminders, and one of its documents asks for the job. */
  ghost predicate Queued(tenant: Tenant, view: TenantView, job: Job) {
    && job.tenantId == tenant && view.stillActive && (view.policy.Some? ==> view.policy.value.enabled)
    && exists i: nat :: i < |view.documents| && Asks(tenant, view, i, job)
  }

  lemma {:induction false} CandidatesByTurn(tenant: Tenant, docs: seq<ScanDoc>, n: nat)
    requires n <= |docs|
    ensures |Candidates(tenant, docs[..n])| == Turn(tenant, docs, n)
    ensures Candidates(tenant, docs[..n]) <= Candidates(tenant, docs)
    decreases |docs| - n
  {
    TurnCounts(tenant, docs, n);
    if n < |docs| {
      CandidatesByTurn(tenant, docs, n + 1);
      assert docs[..n + 1][..n] == docs[..n];
    } else {
      assert docs[..n] == docs;
    }
  }

  lemma {:induction false} TurnCounts(tenant: Tenant, docs: seq<ScanDoc>, n: nat)
    requires n <= |docs|
    ensures |Candidates(tenant, docs[..n])| == Turn(tenant, docs, n)
  {
    if n > 0 {
      TurnCounts(tenant, docs, n - 1);
      assert docs[..n][..n - 1] == docs[..n - 1];
    }
  }

  /** A candidate is handled at its turn. */
  lemma CandidateAt(tenant: Tenant, docs: seq<ScanDoc>, i: nat)
    requires i < |docs| && IsCandidate(tenant, docs[i])
    ensures var k := Turn(tenant, docs, i); k < |Candidates(tenant, docs)| && Candidates(tenant, docs)[k] == docs[i]
  {
    CandidatesByTurn(tenant, docs, i + 1);
    TurnCounts(tenant, docs, i);
    assert docs[..i + 1][..i] == docs[..i];
    assert Candidates(tenant, docs[..i + 1]) == Candidates(tenant, docs[..i]) + [docs[i]];
  }

  /** And nothing else is handled at any turn. */
  lemma {:induction false} TurnOf(tenant: Tenant, docs: seq<ScanDoc>, k: nat, n: nat) returns (i: nat)
    requires n <= |docs| && k < |Candidates(tenant, docs[..n])|
    ensures i < n && IsCandidate(tenant, docs[i]) && Turn(tenant, docs, i) == k
    decreases n
  {
    assert n > 0 && docs[..n][..n - 1] == docs[..n - 1];
    TurnCounts(tenant, docs, n - 1);
    if k < |Candidates(tenant, docs[..n - 1])| {
      i := TurnOf(tenant, docs, k, n - 1);
    } else {
      i := n - 1;
    }
  }

  lemma {:induction false} HitsIffSome(docs: seq<ScanDoc>, id: DocId, due: (ScanDoc, nat) -> bool)
    ensures Hits(docs, id, due) > 0 <==> SomeHit(docs, id, due)
  {
    if docs != [] {
      HitsIffSome(docs[..|docs| - 1], id, due);
    }
  }

  lemma JobIsWanted(tenant: Tenant, docs: seq<ScanDoc>, thresholds: seq<int>, during: nat -> Moment, job: Job)
    ensures job in JobsOf(tenant, docs, thresholds, during) <==> job.tenantId == tenant && Wanted(docs, thresholds, during, job)
  {
    JobsAreHits(tenant, docs, thresholds, during, job);
    HitsIffSome(docs, job.documentId, DueFor(thresholds, during, job.daysBeforeExpiry));
    HitMeansWanted(docs, thresholds, during, job);
    assert job in JobsOf(tenant, docs, thresholds, during) <==> multiset(JobsOf(tenant, docs, thresholds, during))[job] > 0;
  }

  /** Being due, told by day numbers. */
  lemma DueByDays(doc: ScanDoc, thresholds: seq<int>, at: Moment, threshold: int)
    ensures Due(doc, thresholds, at, threshold) <==>
      && doc.expiryDate.Some? && doc.expiryDate.value != "" && UtcMidnightMillis(Text(doc.expiryDate.value)).Some?
      && DayOfValue(Text(doc.expiryDate.value)) - DayOf(at.now) == threshold
      && threshold in thresholds && LogRow(Some(doc.id), threshold, SENT) !in at.log
  {
    if text :| doc.expiryDate == Some(text) {
      DueByDaysOf(doc, text, thresholds, at, threshold);
    }
  }

  lemma DueByDaysOf(doc: ScanDoc, text: string, thresholds: seq<int>, at: Moment, threshold: int)
    ensures doc.expiryDate == Some(text) && text != "" ==>
      (Due(doc, thresholds, at, threshold) <==>
        && UtcMidnightMillis(Text(text)).Some? && DayOfValue(Text(text)) - DayOf(at.now) == threshold
        && threshold in thresholds && LogRow(Some(doc.id), threshold, SENT) !in at.log)
  {
    DaysAheadIsCount(text, at.now);
    DaysLeftIsCount(doc, text, at.now, CalendarDaysUntil(Text(text), at.now));
    DueByCount(doc, thresholds, at, threshold, CalendarDaysUntil(Text(text), at.now));
    CountIs(CalendarDaysUntil(Text(text), at.now), UtcMidnightMillis(Text(text)), DayOfValue(Text(text)), DayOf(at.now), threshold);
  }

  lemma CountIs(count: Option<int>, midnight: Option<int>, day: int, today: int, threshold: int)
    ensures count == (if midnight.None? then None else Some(day - today)) ==>
      (count == Some(threshold) <==> midnight.Some? && day - today == threshold)
  {
  }

  lemma WantedIffAsked(tenant: Tenant, view: TenantView, job: Job)
    ensures Wanted(Candidates(tenant, view.documents), Thresholds(view.policy), view.during, job)
       <==> exists i: nat :: i < |view.documents| && Asks(tenant, view, i, job)
  {
    var docs, thresholds := view.documents, Thresholds(view.policy);
    var candidates := Candidates(tenant, docs);
    if k :| 0 <= k < |candidates| && candidates[k].id == job.documentId
            && Due(candidates[k], thresholds, view.during(k), job.daysBeforeExpiry) {
      assert docs[..|docs|] == docs;
      var i := TurnOf(tenant, docs, k, |docs|);
      CandidateAt(tenant, docs, i);
      DueByDays(docs[i], thresholds, view.during(k), job.daysBeforeExpiry);
      assert Asks(tenant, view, i, job);
    }
    if i: nat :| i < |docs| && Asks(tenant, view, i, job) {
      var k := Turn(tenant, docs, i);
      CandidateAt(tenant, docs, i);
      DueByDays(docs[i], thresholds, view.during(k), job.daysBeforeExpiry);
      assert candidates[k].id == job.documentId && Due(candidates[k], thresholds, view.during(k), job.daysBeforeExpiry);
    }
  }

  /** A scan of a tenant queues exactly the jobs that its documents ask for. */
  lemma ScanMeans(tenant: Tenant, view: TenantView, job: Job)
    ensures job in TenantJobs(tenant, view) <==> Queued(tenant, view, job)
  {
    JobIsWanted(tenant, Candidates(tenant, view.documents), Thresholds(view.policy), view.during, job);
    WantedIffAsked(tenant, view, job);
  }

  /** And a scan of many tenants those of each. */
  lemma {:induction false} ScansMean(tenants: seq<Tenant>, views: Tenant -> TenantView, job: Job)
    ensures job in AllJobs(tenants, views) <==> job.tenantId in tenants && Queued(job.tenantId, views(job.tenantId), job)
  {
    if tenants != [] {
      var last := tenants[|tenants| - 1];
      ScansMean(tenants[..|tenants| - 1], views, job);
      ScanMeans(last, views(last), job);
    }
  }

  // ---- the jobs that the worker's proofs rely on ----

  /** Every job of the scans names the tenant that owns its document. */
  ghost predicate OwnersJobs(owner: DocId -> Tenant, jobs: seq<Job>) {
    forall job :: job in jobs ==> job.tenantId == owner(job.documentId)
  }

  ghost predicate OwnDocuments(owner: DocId -> Tenant, docs: seq<ScanDoc>) {
    forall d :: d in docs ==> d.tenantId == owner(d.id)
  }

  lemma {:induction false} CandidatesJobsAreOwners(
    owner: DocId -> Tenant, tenant: Tenant, docs: seq<ScanDoc>, thresholds: seq<int>, during: nat -> Moment)
    requires forall d :: d in docs ==> tenant == owner(d.id)
    ensures OwnersJobs(owner, JobsOf(tenant, docs, thresholds, during))
  {
    if docs != [] {
      var n := |docs| - 1;
      CandidatesJobsAreOwners(owner, tenant, docs[..n], thresholds, during);
      assert docs[n] in docs;
      JobOfCases(tenant, docs[n], thresholds, during(n));
    }
  }

  /** When each document carries the tenant that owns it, so does each job of a scan of any number of tenants. */
  lemma {:induction false} JobsAreScannerMade(owner: DocId -> Tenant, tenants: seq<Tenant>, views: Tenant -> TenantView)
    requires forall t :: t in tenants ==> OwnDocuments(owner, views(t).documents)
    ensures OwnersJobs(owner, AllJobs(tenants, views))
  {
    if tenants != [] {
      var front, last := tenants[..|tenants| - 1], tenants[|tenants| - 1];
      JobsAreScannerMade(owner, front, views);
      assert last in tenants;
      CandidatesJobsAreOwners(owner, last, Candidates(last, views(last).documents), Thresholds(views(last).policy), views(last).during);
    }
  }

  // ---- one day per threshold ----

  /** A threshold is due on one UTC day only: the expiry day minus the threshold. */
  lemma DueOnOneDay(doc: ScanDoc, thresholds: seq<int>, at: Moment, threshold: int)
    requires doc.expiryDate.Some? && doc.expiryDate.value != "" && UtcMidnightMillis(Text(doc.expiryDate.value)).Some?
    ensures Due(doc, thresholds, at, threshold) <==>
      && DayOf(at.now) == DayOfValue(Text(doc.expiryDate.value)) - threshold
      && threshold in thresholds && !AlreadySent(at.log, doc.id, threshold)
  {
    if text :| doc.expiryDate == Some(text) {
      DueOnDay(doc, text, thresholds, at, threshold);
    }
  }

  lemma DueOnDay(doc: ScanDoc, text: string, thresholds: seq<int>, at: Moment, threshold: int)
    ensures doc.expiryDate == Some(text) && text != "" && UtcMidnightMillis(Text(text)).Some? ==>
      (Due(doc, thresholds, at, threshold) <==>
        && DayOf(at.now) == DayOfValue(Text(text)) - threshold
        && threshold in thresholds && !AlreadySent(at.log, doc.id, threshold))
  {
    DaysLeftToday(doc, text, at.now);
    DueByCount(doc, thresholds, at, threshold, DaysLeft(doc, at.now));
  }

  lemma DaysLeftToday(doc: ScanDoc, text: string, now: Clock)
    ensures doc.expiryDate == Some(text) && text != "" && UtcMidnightMillis(Text(text)).Some? ==>
      DaysLeft(doc, now) == Some(DayOfValue(Text(text)) - DayOf(now))
  {
    ClockDaysUntil(Text(text), now);
    DaysLeftIsCount(doc, text, now, CalendarDaysUntil(Text(text), now));
  }

  lemma DaysLeftIsCount(doc: ScanDoc, text: string, now: Clock, count: Option<int>)
    ensures doc.expiryDate == Some(text) && text != "" && CalendarDaysUntil(Text(text), now) == count ==> DaysLeft(doc, now) == count
  {
  }

  lemma DueByCount(doc: ScanDoc, thresholds: seq<int>, at: Moment, threshold: int, count: Option<int>)
    ensures DaysLeft(doc, at.now) == count ==>
      (Due(doc, thresholds, at, threshold) <==>
        count == Some(threshold) && threshold in thresholds && !AlreadySent(at.log, doc.id, threshold))
  {
  }

  /**
    A reminder that was due once is due at another time exactly if it is the same UTC day and no SENT row of this
    document and threshold stands in the log. So however often it failed, and whatever was sent for others in
    between, it is due for the rest of its day; on any other day it is not, and a daily scan never repeats it.
  */
  lemma RetryOnlyOnTheSameDay(doc: ScanDoc, thresholds: seq<int>, at: Moment, later: Moment, threshold: int)
    requires Due(doc, thresholds, at, threshold)
    ensures Due(doc, thresholds, later, threshold) <==>
      DayOf(later.now) == DayOf(at.now) && LogRow(Some(doc.id), threshold, SENT) !in later.log
  {
    SameDayOrNever(doc, thresholds, at, later, threshold);
  }

  lemma SameDayOrNever(doc: ScanDoc, thresholds: seq<int>, at: Moment, later: Moment, threshold: int)
    ensures Due(doc, thresholds, at, threshold) ==>
      (Due(doc, thresholds, later, threshold) <==>
        DayOf(later.now) == DayOf(at.now) && LogRow(Some(doc.id), threshold, SENT) !in later.log)
  {
    SameCountOnSameDay(doc, at.now, later.now);
  }

  /** The day count of a document is the same at two times exactly on the same UTC day. */
  lemma SameCountOnSameDay(doc: ScanDoc, t0: Clock, t1: Clock)
    ensures DaysLeft(doc, t0).Some? ==> (DaysLeft(doc, t1) == DaysLeft(doc, t0) <==> DayOf(t1) == DayOf(t0))
  {
    if doc.expiryDate.Some? {
      DaysUntilFallsBothWays(Text(doc.expiryDate.value), t0, t1);
    }
  }

  lemma DaysUntilFallsBothWays(value: DateValue, t0: Clock, t1: Clock)
    ensures CalendarDaysUntil(value, t0).Some? ==>
      (CalendarDaysUntil(value, t1) == CalendarDaysUntil(value, t0) <==> DayOf(t1) == DayOf(t0))
  {
    if t0 <= t1 {
      DaysUntilFalls(value, t0, t1);
    } else {
      DaysUntilFalls(value, t1, t0);
    }
  }

  /** Rows of any status for other documents and thresholds, and failures of this one, leave a reminder due. */
  lemma OtherRowsDoNotMatter(doc: ScanDoc, thresholds: seq<int>, at: Moment, later: Moment, threshold: int)
    requires Due(doc, thresholds, at, threshold) && DayOf(later.now) == DayOf(at.now) && at.log <= later.log
    requires forall row :: row in later.log[|at.log|..] ==>
      row.documentId != Some(doc.id) || row.daysBeforeExpiry != threshold || row.status != SENT
    ensures Due(doc, thresholds, later, threshold)
  {
    SentRowIsNew(at.log, later.log, LogRow(Some(doc.id), threshold, SENT));
    SameDayOrNever(doc, thresholds, at, later, threshold);
  }

  lemma SentRowIsNew(log: seq<LogRow>, later: seq<LogRow>, row: LogRow)
    ensures log <= later && row !in log && row !in later[|log|..] ==> row !in later
  {
    if log <= later {
      assert later == log + later[|log|..];
    }
  }

  // ---- overridden documents ----

  function ScanDocOf(tenant: Tenant, id: RowLocking.Id, row: Documents.DocRow): ScanDoc {
    ScanDoc(Decimal.Shortest(id), tenant, row.fields.expiryDate, row.fields.expiryStatus, !row.Live())
  }

  /**
    A document that was overridden at some committed state is enqueued by no scan that reads its candidates at
    that state or any later one, when clients send only versions they learned.
  */
  lemma OverriddenIsNeverEnqueued(
    policies: Documents.Policies, s: Documents.DocState, trace: seq<Documents.DocAction>, id: RowLocking.Id,
    tenant: Tenant, view: TenantView, threshold: int)
    requires RowLocking.ClientInv(Documents.ServiceOf(policies), s) && RowLocking.Legal(Documents.ServiceOf(policies), s, trace)
    requires RowLocking.Disciplined(Documents.ServiceOf(policies), s, trace)
    requires id in s.rows && IsOverride(s.rows[id].fields.expiryStatus)
    requires var s' := RowLocking.Exec(Documents.ServiceOf(policies), s, trace);
      DistinctIds(view.documents)
      && forall d :: d in view.documents && d.id == Decimal.Shortest(id) ==> id in s'.rows && d == ScanDocOf(tenant, id, s'.rows[id])
    ensures Job(tenant, Decimal.Shortest(id), threshold) !in TenantJobs(tenant, view)
  {
    Documents.OverridesAbsorb(policies, s, trace, id);
    var job := Job(tenant, Decimal.Shortest(id), threshold);
    ScanMeans(tenant, view, job);
    WantedIffAsked(tenant, view, job);
    var candidates := Candidates(tenant, view.documents);
    assert forall k :: 0 <= k < |candidates| ==> candidates[k] in candidates;
  }
}
