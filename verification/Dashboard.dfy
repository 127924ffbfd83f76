/** The dashboard: counts by status and by type, and the window of expiring documents. */
module Dashboard {
  import opened Wrappers
  import opened Calendar
  import opened Expiry

  datatype Doc = Doc(tenantId: nat, docType: string, expiryStatus: ExpiryStatus, expiryDate: Option<Civil>, deleted: bool)

  datatype StatusCount = StatusCount(expiryStatus: ExpiryStatus, count: nat)
  datatype StatsRow = StatsRow(docType: string, expiryStatus: ExpiryStatus, count: nat)
  datatype Summary = Summary(totalDocuments: nat, byStatus: map<ExpiryStatus, nat>)

  const ALL_EXPIRY_STATUSES := {VALID, EXPIRING_SOON, RENEWAL_IN_PROGRESS, EXCEPTION, EXPIRED, BLOCKED}

  // ---- what the queries return ----

  function CountIf<T>(docs: seq<T>, p: T -> bool): nat {
    if docs == [] then 0 else CountIf(docs[..|docs| - 1], p) + (if p(docs[|docs| - 1]) then 1 else 0)
  }

  predicate IsLive(doc: Doc, tenant: nat) {
    doc.tenantId == tenant && !doc.deleted
  }

  // The selections, as named predicates.

  function Live(tenant: nat): Doc -> bool {
    d => IsLive(d, tenant)
  }

  function WithStatus(tenant: nat, s: ExpiryStatus): Doc -> bool {
    d => IsLive(d, tenant) && d.expiryStatus == s
  }

  function WithTypeAndStatus(tenant: nat, docType: string, s: ExpiryStatus): Doc -> bool {
    d => IsLive(d, tenant) && d.docType == docType && d.expiryStatus == s
  }

  function InGroups(tenant: nat, rows: seq<StatusCount>): Doc -> bool {
    d => IsLive(d, tenant) && HasStatus(rows, d.expiryStatus)
  }

  function InTypeGroups(tenant: nat, rows: seq<StatsRow>, s: ExpiryStatus): Doc -> bool {
    d => IsLive(d, tenant) && d.expiryStatus == s && HasGroup(rows, d.docType, s)
  }

  function Either<T>(p: T -> bool, q: T -> bool): T -> bool {
    d => p(d) || q(d)
  }

  function Nothing<T>(): T -> bool {
    _ => false
  }

  function CountStatus(docs: seq<Doc>, tenant: nat, s: ExpiryStatus): nat {
    CountIf(docs, WithStatus(tenant, s))
  }

  function CountTypeAndStatus(docs: seq<Doc>, tenant: nat, docType: string, s: ExpiryStatus): nat {
    CountIf(docs, WithTypeAndStatus(tenant, docType, s))
  }

  /** SELECT expiry_status, count(*) ... GROUP BY expiry_status, in any order. */
  ghost predicate GroupsByStatus(rows: seq<StatusCount>, docs: seq<Doc>, tenant: nat) {
    && (forall i, j :: 0 <= i < j < |rows| ==> rows[i].expiryStatus != rows[j].expiryStatus)
    && (forall i :: 0 <= i < |rows| ==> rows[i].count == CountStatus(docs, tenant, rows[i].expiryStatus) > 0)
    && (forall s :: CountStatus(docs, tenant, s) > 0 ==> exists i :: 0 <= i < |rows| && rows[i].expiryStatus == s)
  }

  /** SELECT doc_type, expiry_status, count(*) ... GROUP BY doc_type, expiry_status, in any order. */
  ghost predicate GroupsByTypeAndStatus(rows: seq<StatsRow>, docs: seq<Doc>, tenant: nat) {
    && (forall i, j :: 0 <= i < j < |rows| ==> (rows[i].docType, rows[i].expiryStatus) != (rows[j].docType, rows[j].expiryStatus))
    && (forall i :: 0 <= i < |rows| ==>
          rows[i].count == CountTypeAndStatus(docs, tenant, rows[i].docType, rows[i].expiryStatus) > 0)
    && (forall t, s :: CountTypeAndStatus(docs, tenant, t, s) > 0 ==>
          exists i :: 0 <= i < |rows| && rows[i].docType == t && rows[i].expiryStatus == s)
  }

  // ---- counting ----

  /** The places of the documents that a selection takes. */
  function Places<T>(docs: seq<T>, p: T -> bool): set<nat> {
    set i: nat | i < |docs| && p(docs[i])
  }

  /** Counting is the number of these places. */
  lemma {:induction false} CountIsNumberOfPlaces<T>(docs: seq<T>, p: T -> bool)
    ensures CountIf(docs, p) == |Places(docs, p)|
  {
    if docs != [] {
      var n := |docs| - 1;
      CountIsNumberOfPlaces(docs[..n], p);
      assert Places(docs, p) == Places(docs[..n], p) + if p(docs[n]) then {n} else {};
    }
  }

  /** The live documents of a tenant with a status, by place. */
  function LiveWith(docs: seq<Doc>, tenant: nat, s: ExpiryStatus): set<nat> {
    set i: nat | i < |docs| && docs[i].tenantId == tenant && !docs[i].deleted && docs[i].expiryStatus == s
  }

  function LiveOf(docs: seq<Doc>, tenant: nat): set<nat> {
    set i: nat | i < |docs| && docs[i].tenantId == tenant && !docs[i].deleted
  }

  lemma CountsAreLive(docs: seq<Doc>, tenant: nat, s: ExpiryStatus)
    ensures CountStatus(docs, tenant, s) == |LiveWith(docs, tenant, s)|
    ensures CountIf(docs, Live(tenant)) == |LiveOf(docs, tenant)|
  {
    CountIsNumberOfPlaces(docs, WithStatus(tenant, s));
    CountIsNumberOfPlaces(docs, Live(tenant));
    assert Places(docs, WithStatus(tenant, s)) == LiveWith(docs, tenant, s);
    assert Places(docs, Live(tenant)) == LiveOf(docs, tenant);
  }

  /** A count by type and status is the number of such live documents. */
  lemma TypeCountsAreLive(docs: seq<Doc>, tenant: nat, docType: string, s: ExpiryStatus)
    ensures CountTypeAndStatus(docs, tenant, docType, s)
         == |set i: nat | i < |docs| && docs[i].tenantId == tenant && !docs[i].deleted && docs[i].expiryStatus == s && docs[i].docType == docType|
  {
    var p := WithTypeAndStatus(tenant, docType, s);
    CountIsNumberOfPlaces(docs, p);
    assert Places(docs, p)
        == set i: nat | i < |docs| && docs[i].tenantId == tenant && !docs[i].deleted && docs[i].expiryStatus == s && docs[i].docType == docType;
  }

  lemma {:induction false} CountSame<T>(docs: seq<T>, p: T -> bool, q: T -> bool)
    requires forall d :: d in docs ==> p(d) == q(d)
    ensures CountIf(docs, p) == CountIf(docs, q)
  {
    if docs != [] {
      assert docs[|docs| - 1] in docs;
      CountSame(docs[..|docs| - 1], p, q);
    }
  }

  lemma {:induction false} CountDisjoint<T>(docs: seq<T>, p: T -> bool, q: T -> bool)
    requires forall d :: d in docs ==> !(p(d) && q(d))
    ensures CountIf(docs, Either(p, q)) == CountIf(docs, p) + CountIf(docs, q)
  {
    if docs != [] {
      assert docs[|docs| - 1] in docs;
      CountDisjoint(docs[..|docs| - 1], p, q);
    }
  }

  lemma {:induction false} CountOfMember<T>(docs: seq<T>, p: T -> bool, d: T)
    requires d in docs && p(d)
    ensures CountIf(docs, p) > 0
  {
    if docs[|docs| - 1] != d {
      CountOfMember(docs[..|docs| - 1], p, d);
    }
  }

  function Total(rows: seq<StatusCount>): nat {
    if rows == [] then 0 else Total(rows[..|rows| - 1]) + rows[|rows| - 1].count
  }

  predicate HasStatus(rows: seq<StatusCount>, s: ExpiryStatus) {
    exists i :: 0 <= i < |rows| && rows[i].expiryStatus == s
  }

  /** The counts of distinct groups add up to the documents in those groups. */
  lemma {:induction false} GroupTotal(rows: seq<StatusCount>, docs: seq<Doc>, tenant: nat)
    requires forall i, j :: 0 <= i < j < |rows| ==> rows[i].expiryStatus != rows[j].expiryStatus
    requires forall i :: 0 <= i < |rows| ==> rows[i].count == CountStatus(docs, tenant, rows[i].expiryStatus)
    ensures Total(rows) == CountIf(docs, InGroups(tenant, rows))
  {
    if rows == [] {
      CountSame(docs, InGroups(tenant, rows), Nothing<Doc>());
      CountNone(docs);
    } else {
      var front, last := rows[..|rows| - 1], rows[|rows| - 1];
      GroupTotal(front, docs, tenant);
      var p := InGroups(tenant, front);
      var q := WithStatus(tenant, last.expiryStatus);
      CountDisjoint(docs, p, q);
      forall s ensures HasStatus(rows, s) <==> HasStatus(front, s) || s == last.expiryStatus {
        if HasStatus(front, s) {
          var i :| 0 <= i < |front| && front[i].expiryStatus == s;
          assert rows[i].expiryStatus == s;
        }
        assert rows[|rows| - 1] == last;
      }
      CountSame(docs, InGroups(tenant, rows), Either(p, q));
    }
  }

  lemma {:induction false} CountNone(docs: seq<Doc>)
    ensures CountIf(docs, Nothing<Doc>()) == 0
  {
    if docs != [] {
      CountNone(docs[..|docs| - 1]);
    }
  }

  function SumOfSix(counts: map<ExpiryStatus, nat>): nat
    requires counts.Keys == ALL_EXPIRY_STATUSES
  {
    counts[VALID] + counts[EXPIRING_SOON] + counts[RENEWAL_IN_PROGRESS] + counts[EXCEPTION] + counts[EXPIRED] + counts[BLOCKED]
  }

  /** Every live document has one of the six statuses, and one only. */
  lemma {:induction false} SixStatusesPartition(docs: seq<Doc>, tenant: nat)
    ensures CountIf(docs, Live(tenant))
         == CountStatus(docs, tenant, VALID) + CountStatus(docs, tenant, EXPIRING_SOON)
            + CountStatus(docs, tenant, RENEWAL_IN_PROGRESS) + CountStatus(docs, tenant, EXCEPTION)
            + CountStatus(docs, tenant, EXPIRED) + CountStatus(docs, tenant, BLOCKED)
  {
    if docs != [] {
      SixStatusesPartition(docs[..|docs| - 1], tenant);
    }
  }

  /**
    The summary: whatever order the groups come in, each of the six statuses has its number of live documents,
    and the total, which is the sum of the six, is the number of live documents of the tenant.
  */
  method GetSummary(rows: seq<StatusCount>, ghost docs: seq<Doc>, ghost tenant: nat) returns (r: Summary)
    requires GroupsByStatus(rows, docs, tenant)
    ensures r.byStatus.Keys == ALL_EXPIRY_STATUSES
    ensures forall s :: s in ALL_EXPIRY_STATUSES ==> r.byStatus[s] == CountStatus(docs, tenant, s)
    ensures r.totalDocuments == CountIf(docs, Live(tenant)) == SumOfSix(r.byStatus)
    ensures forall s :: s in ALL_EXPIRY_STATUSES ==> r.byStatus[s] == |LiveWith(docs, tenant, s)|
    ensures r.totalDocuments == |LiveOf(docs, tenant)|
  {
    var byStatus: map<ExpiryStatus, nat> := map s | s in ALL_EXPIRY_STATUSES :: 0;
    var totalDocuments := 0;
    for i := 0 to |rows|
      invariant Filled(byStatus, rows[..i], docs, tenant) && totalDocuments == Total(rows[..i])
    {
      FillOneMore(byStatus, rows, i, docs, tenant);
      byStatus := byStatus[rows[i].expiryStatus := rows[i].count];
      totalDocuments := totalDocuments + rows[i].count;
    }
    assert rows[..|rows|] == rows;
    GroupTotal(rows, docs, tenant);
    EveryLiveDocIsGrouped(rows, docs, tenant);
    FilledByAllGroups(byStatus, rows, docs, tenant);
    SixStatusesPartition(docs, tenant);
    forall s | s in ALL_EXPIRY_STATUSES
      ensures CountStatus(docs, tenant, s) == |LiveWith(docs, tenant, s)| && CountIf(docs, Live(tenant)) == |LiveOf(docs, tenant)|
    {
      CountsAreLive(docs, tenant, s);
    }
    assert VALID in ALL_EXPIRY_STATUSES;
    r := Summary(totalDocuments, byStatus);
  }

  /** The groups seen so far are entered, and the other statuses are still zero. */
  ghost predicate Filled(byStatus: map<ExpiryStatus, nat>, rows: seq<StatusCount>, docs: seq<Doc>, tenant: nat) {
    && byStatus.Keys == ALL_EXPIRY_STATUSES
    && forall s :: s in ALL_EXPIRY_STATUSES ==> byStatus[s] == if HasStatus(rows, s) then CountStatus(docs, tenant, s) else 0
  }

  lemma FillOneMore(byStatus: map<ExpiryStatus, nat>, rows: seq<StatusCount>, i: nat, docs: seq<Doc>, tenant: nat)
    requires GroupsByStatus(rows, docs, tenant) && i < |rows| && Filled(byStatus, rows[..i], docs, tenant)
    ensures Filled(byStatus[rows[i].expiryStatus := rows[i].count], rows[..i + 1], docs, tenant)
    ensures Total(rows[..i + 1]) == Total(rows[..i]) + rows[i].count
  {
    OneMoreGroup(rows, i);
  }

  lemma FilledByAllGroups(byStatus: map<ExpiryStatus, nat>, rows: seq<StatusCount>, docs: seq<Doc>, tenant: nat)
    requires GroupsByStatus(rows, docs, tenant) && Filled(byStatus, rows, docs, tenant)
    ensures forall s :: s in ALL_EXPIRY_STATUSES ==> byStatus[s] == CountStatus(docs, tenant, s)
  {
  }

  lemma OneMoreGroup(rows: seq<StatusCount>, i: nat)
    requires i < |rows|
    ensures Total(rows[..i + 1]) == Total(rows[..i]) + rows[i].count
    ensures forall s :: HasStatus(rows[..i + 1], s) <==> HasStatus(rows[..i], s) || s == rows[i].expiryStatus
  {
    var front, longer := rows[..i], rows[..i + 1];
    assert longer[..i] == front && longer[i] == rows[i];
    forall s ensures HasStatus(longer, s) <==> HasStatus(front, s) || s == rows[i].expiryStatus {
      if HasStatus(front, s) {
        var k :| 0 <= k < i && front[k].expiryStatus == s;
        assert longer[k].expiryStatus == s;
      }
    }
  }

  lemma EveryLiveDocIsGrouped(rows: seq<StatusCount>, docs: seq<Doc>, tenant: nat)
    requires GroupsByStatus(rows, docs, tenant)
    ensures CountIf(docs, InGroups(tenant, rows)) == CountIf(docs, Live(tenant))
  {
    forall d | d in docs && IsLive(d, tenant) ensures HasStatus(rows, d.expiryStatus) {
      CountOfMember(docs, WithStatus(tenant, d.expiryStatus), d);
      assert CountStatus(docs, tenant, d.expiryStatus) > 0;
    }
    CountSame(docs, InGroups(tenant, rows), Live(tenant));
  }

  // ---- statistics by type agree with the summary ----

  function StatusTotal(rows: seq<StatsRow>, s: ExpiryStatus): nat {
    if rows == [] then 0 else
      StatusTotal(rows[..|rows| - 1], s) + (if rows[|rows| - 1].expiryStatus == s then rows[|rows| - 1].count else 0)
  }

  predicate HasGroup(rows: seq<StatsRow>, docType: string, s: ExpiryStatus) {
    exists i :: 0 <= i < |rows| && rows[i].docType == docType && rows[i].expiryStatus == s
  }

  lemma {:induction false} TypeTotal(rows: seq<StatsRow>, docs: seq<Doc>, tenant: nat, s: ExpiryStatus)
    requires forall i, j :: 0 <= i < j < |rows| ==> (rows[i].docType, rows[i].expiryStatus) != (rows[j].docType, rows[j].expiryStatus)
    requires forall i :: 0 <= i < |rows| ==> rows[i].count == CountTypeAndStatus(docs, tenant, rows[i].docType, rows[i].expiryStatus)
    ensures StatusTotal(rows, s) == CountIf(docs, InTypeGroups(tenant, rows, s))
  {
    var all := InTypeGroups(tenant, rows, s);
    if rows == [] {
      CountSame(docs, all, Nothing<Doc>());
      CountNone(docs);
    } else {
      var front, last := rows[..|rows| - 1], rows[|rows| - 1];
      TypeTotal(front, docs, tenant, s);
      var p := InTypeGroups(tenant, front, s);
      var q := WithTypeAndStatus(tenant, last.docType, last.expiryStatus);
      OneMoreTypeGroup(rows, s);
      if last.expiryStatus == s {
        CountDisjoint(docs, p, q);
        CountSame(docs, all, Either(p, q));
      } else {
        CountSame(docs, all, p);
      }
    }
  }

  lemma OneMoreTypeGroup(rows: seq<StatsRow>, s: ExpiryStatus)
    requires rows != []
    requires forall i, j :: 0 <= i < j < |rows| ==> (rows[i].docType, rows[i].expiryStatus) != (rows[j].docType, rows[j].expiryStatus)
    ensures var front, last := rows[..|rows| - 1], rows[|rows| - 1];
      && (forall t :: HasGroup(rows, t, s) <==> HasGroup(front, t, s) || (t == last.docType && s == last.expiryStatus))
      && !HasGroup(front, last.docType, last.expiryStatus)
  {
    var front, last := rows[..|rows| - 1], rows[|rows| - 1];
    forall t ensures HasGroup(rows, t, s) <==> HasGroup(front, t, s) || (t == last.docType && s == last.expiryStatus) {
      if HasGroup(front, t, s) {
        var i :| 0 <= i < |front| && front[i].docType == t && front[i].expiryStatus == s;
        assert rows[i].docType == t;
      }
      assert rows[|rows| - 1] == last;
    }
    forall i | 0 <= i < |front| ensures !(front[i].docType == last.docType && front[i].expiryStatus == last.expiryStatus) {
      assert (rows[i].docType, rows[i].expiryStatus) != (rows[|rows| - 1].docType, rows[|rows| - 1].expiryStatus);
    }
  }

  /** Summing the document statistics over the types gives the summary, status by status. */
  lemma StatsAgreeWithSummary(rows: seq<StatsRow>, docs: seq<Doc>, tenant: nat, s: ExpiryStatus)
    requires GroupsByTypeAndStatus(rows, docs, tenant)
    ensures StatusTotal(rows, s) == CountStatus(docs, tenant, s)
  {
    TypeTotal(rows, docs, tenant, s);
    var p := WithStatus(tenant, s);
    var q := InTypeGroups(tenant, rows, s);
    forall d | d in docs && p(d) ensures q(d) {
      CountOfMember(docs, WithTypeAndStatus(tenant, d.docType, s), d);
      assert CountTypeAndStatus(docs, tenant, d.docType, s) > 0;
    }
    CountSame(docs, p, q);
  }

  // ---- the expiring window ----

  /** expiry_date >= today AND expiry_date <= windowEnd, on a UTC host and with one reading of the clock. */
  predicate InWindow(expiryDate: Civil, now: Clock, windowEnd: Clock) {
    !Before(expiryDate, UtcDate(now)) && !Before(UtcDate(windowEnd), expiryDate)
  }

  /** The date window of the dashboard is the day count of the expiry engine and the scanner. */
  lemma WindowIsDayCount(expiryDate: Civil, now: Clock, withinDays: int, windowEnd: Clock)
    requires ValidCivil(expiryDate) && 100 <= expiryDate.year <= 9999 && windowEnd == now + withinDays * MS_PER_DAY
    ensures CalendarDaysUntil(Text(DateText(expiryDate)), now).Some?
    ensures InWindow(expiryDate, now, windowEnd) <==>
      0 <= CalendarDaysUntil(Text(DateText(expiryDate)), now).value <= withinDays
  {
    ClockIsNotRemapped(now);
    DaysUntilCountsDays(expiryDate, now);
    DayOfCivilOfDay(DayOf(now));
    DayOfCivilOfDay(DayOf(windowEnd));
    DayNumberPreservesOrder(expiryDate, UtcDate(now));
    DayNumberPreservesOrder(UtcDate(windowEnd), expiryDate);
    assert DayOf(windowEnd) == DayOf(now) + withinDays;
  }
}
