/** The expiry engine: ExpiryService.calculateStatus as a function of the moment it is asked. */
module Expiry {
  import opened Wrappers
  import opened Calendar

  datatype ExpiryStatus = VALID | EXPIRING_SOON | RENEWAL_IN_PROGRESS | EXCEPTION | EXPIRED | BLOCKED

  datatype Policy = Policy(
    warningDays1: int, warningDays2: int, warningDays3: int, criticalDays: int, gracePeriodDays: int, autoBlock: bool)

  const DEFAULT_POLICY := Policy(90, 60, 30, 14, 0, false)

  predicate IsOverride(s: ExpiryStatus) {
    s == RENEWAL_IN_PROGRESS || s == EXCEPTION
  }

  function Max(a: int, b: int): int {
    if a >= b then a else b
  }

  /** The two days-based branches of the engine; a missing count stands for NaN, which fails every comparison. */
  function StatusForDays(daysUntilExpiry: Option<int>, policy: Policy): ExpiryStatus {
    if daysUntilExpiry.None? then VALID else
      var days := daysUntilExpiry.value;
      if days < 0 then
        if policy.gracePeriodDays > 0 && days >= -policy.gracePeriodDays then EXPIRING_SOON
        else if policy.autoBlock then BLOCKED else EXPIRED
      else
        var widest := Max(Max(policy.criticalDays, policy.warningDays3), Max(policy.warningDays2, policy.warningDays1));
        if days <= widest then EXPIRING_SOON else VALID
  }

  function CalculateStatus(
    expiryDate: Option<DateValue>, policy: Policy, currentStatus: ExpiryStatus, now: Instant): ExpiryStatus
  {
    if IsOverride(currentStatus) then currentStatus
    else if expiryDate.None? || expiryDate.value == Text("") then VALID
    else StatusForDays(CalendarDaysUntil(expiryDate.value, now), policy)
  }

  /** How bad a status is; manual overrides are not ranked. */
  function Rank(s: ExpiryStatus): nat
    requires !IsOverride(s)
  {
    match s
    case VALID => 0
    case EXPIRING_SOON => 1
    case EXPIRED => 2
    case BLOCKED => 2
  }

  /**
    The collapse to the widest window is the four sequential threshold checks of the specification, in any
    order of the thresholds; grace wins over blocking; a date beyond every window or of no day is VALID.
  */
  lemma StatusMeansThresholds(days: int, policy: Policy)
    ensures var s := StatusForDays(Some(days), policy);
      && (s == EXPIRING_SOON <==>
            || (0 <= days && (days <= policy.criticalDays || days <= policy.warningDays3
                              || days <= policy.warningDays2 || days <= policy.warningDays1))
            || (days < 0 && -days <= policy.gracePeriodDays))
      && (s == VALID <==>
            0 <= days && days > policy.criticalDays && days > policy.warningDays3
            && days > policy.warningDays2 && days > policy.warningDays1)
      && (s == BLOCKED <==> days < 0 && -days > policy.gracePeriodDays && policy.autoBlock)
      && (s == EXPIRED <==> days < 0 && -days > policy.gracePeriodDays && !policy.autoBlock)
  {
  }

  /** The clock moves the day count by whole days and in one direction only. */
  lemma DaysUntilFalls(value: DateValue, t0: Clock, t1: Clock)
    requires t0 <= t1
    ensures CalendarDaysUntil(value, t0).Some? == CalendarDaysUntil(value, t1).Some?
    ensures CalendarDaysUntil(value, t0).Some? ==>
      CalendarDaysUntil(value, t0).value - CalendarDaysUntil(value, t1).value == DayOf(t1) - DayOf(t0) >= 0
  {
    if UtcMidnightMillis(value).Some? {
      RoundingIsExact(value, t0);
      RoundingIsExact(value, t1);
      ClockIsNotRemapped(t0);
      ClockIsNotRemapped(t1);
    }
  }

  lemma ClockIsNotRemapped(t: Clock)
    ensures DayOfValue(Moment(t)) == DayOf(t)
  {
    ClockIsAfter1970(t);
    MidnightOfMoment(t);
  }

  lemma ClockMidnight(now: Clock)
    ensures IsMidnight(UtcMidnightMillis(Moment(now)), DayOf(now))
  {
    ClockIsNotRemapped(now);
  }

  /** For a clock the day count is the day of the value minus the UTC day of now. */
  lemma ClockDaysUntil(value: DateValue, now: Clock)
    ensures UtcMidnightMillis(value).Some? ==> CalendarDaysUntil(value, now) == Some(DayOfValue(value) - DayOf(now))
  {
    ClockMidnight(now);
    DaysUntilMidnight(value, now, DayOfValue(value), DayOf(now));
  }

  lemma ClockIsAfter1970(t: Clock)
    ensures UtcDate(t).year >= 1970
  {
    var y := UtcDate(t).year;
    YearHoldsDay(DayOf(t));
    if y < 1970 {
      YearsAreMonotone(y + 1, 1970);
    }
  }

  lemma FewerDaysAreWorse(d0: Option<int>, d1: Option<int>, policy: Policy)
    requires d0.Some? == d1.Some? && (d0.Some? ==> d0.value >= d1.value)
    ensures !IsOverride(StatusForDays(d0, policy)) && !IsOverride(StatusForDays(d1, policy))
    ensures Rank(StatusForDays(d0, policy)) <= Rank(StatusForDays(d1, policy))
  {
  }

  /** For every policy, however its windows are ordered and signed: as time passes a recomputed status never gets better. */
  lemma StatusOnlyWorsens(expiryDate: Option<DateValue>, policy: Policy, t0: Clock, t1: Clock)
    requires t0 <= t1
    ensures !IsOverride(CalculateStatus(expiryDate, policy, VALID, t0))
    ensures !IsOverride(CalculateStatus(expiryDate, policy, VALID, t1))
    ensures Rank(CalculateStatus(expiryDate, policy, VALID, t0)) <= Rank(CalculateStatus(expiryDate, policy, VALID, t1))
  {
    if expiryDate.Some? && expiryDate.value != Text("") {
      var d0, d1 := CalendarDaysUntil(expiryDate.value, t0), CalendarDaysUntil(expiryDate.value, t1);
      assert d0.Some? == d1.Some? && (d0.Some? ==> d0.value >= d1.value) by {
        DaysUntilFalls(expiryDate.value, t0, t1);
      }
      FewerDaysAreWorse(d0, d1, policy);
      assert CalculateStatus(expiryDate, policy, VALID, t0) == StatusForDays(d0, policy);
      assert CalculateStatus(expiryDate, policy, VALID, t1) == StatusForDays(d1, policy);
    } else {
      assert CalculateStatus(expiryDate, policy, VALID, t0) == VALID;
    }
  }

  /** From best to worst. */
  lemma RankOrders()
    ensures Rank(VALID) < Rank(EXPIRING_SOON) < Rank(EXPIRED) == Rank(BLOCKED)
  {
  }

  // ---- what a stored status means ----

  /**
    The status that a document with this expiry date has at this time under this policy, unless it was set by hand:
    without a date, or with a text that is no date, VALID; before the date and on it, EXPIRING_SOON within any of the
    four windows and VALID beyond them all; after it, EXPIRING_SOON while the grace period lasts, and then BLOCKED or
    EXPIRED.
  */
  ghost predicate IsStatusOn(s: ExpiryStatus, expiryDate: Option<string>, policy: Policy, now: Clock) {
    if expiryDate.None? || expiryDate.value == "" || UtcMidnightMillis(Text(expiryDate.value)).None? then s == VALID else
      var days := DayOfValue(Text(expiryDate.value)) - DayOf(now);
      if days < 0 then
        s == if -days <= policy.gracePeriodDays then EXPIRING_SOON else if policy.autoBlock then BLOCKED else EXPIRED
      else
        s == if days > policy.warningDays1 && days > policy.warningDays2 && days > policy.warningDays3 && days > policy.criticalDays
             then VALID else EXPIRING_SOON
  }

  /** The engine leaves what was set by hand, and computes the status of the day otherwise. */
  lemma CalculateStatusMeans(expiryDate: Option<string>, policy: Policy, current: ExpiryStatus, now: Clock)
    ensures var s := CalculateStatus(if expiryDate.Some? then Some(Text(expiryDate.value)) else None, policy, current, now);
      if current == RENEWAL_IN_PROGRESS || current == EXCEPTION then s == current else IsStatusOn(s, expiryDate, policy, now)
  {
    if expiryDate.Some? && expiryDate.value != "" {
      DaysAheadIsCount(expiryDate.value, now);
    }
  }

  /** A text that is no date has no count; another one has the days ahead. */
  lemma DaysAheadIsCount(text: string, now: Clock)
    ensures CalendarDaysUntil(Text(text), now)
         == if UtcMidnightMillis(Text(text)).None? then None else Some(DayOfValue(Text(text)) - DayOf(now))
  {
    NoDateNoCount(Text(text), now);
    DateHasCount(text, now);
  }

  lemma NoDateNoCount(value: DateValue, now: Clock)
    ensures UtcMidnightMillis(value).None? ==> CalendarDaysUntil(value, now).None?
  {
  }

  lemma DateHasCount(text: string, now: Clock)
    ensures UtcMidnightMillis(Text(text)).Some? ==> CalendarDaysUntil(Text(text), now) == Some(DayOfValue(Text(text)) - DayOf(now))
  {
    ClockDaysUntil(Text(text), now);
  }

  /** t is as bad as s, or worse. */
  predicate NoBetter(t: ExpiryStatus, s: ExpiryStatus) {
    && (s == EXPIRING_SOON ==> t == EXPIRING_SOON || t == EXPIRED || t == BLOCKED)
    && (s == EXPIRED || s == BLOCKED ==> t == EXPIRED || t == BLOCKED)
  }

  /** The status of the day never gets better, whatever the policy. */
  lemma StatusOfTheDayWorsens(expiryDate: Option<string>, policy: Policy, t0: Clock, t1: Clock, s0: ExpiryStatus, s1: ExpiryStatus)
    requires t0 <= t1 && IsStatusOn(s0, expiryDate, policy, t0) && IsStatusOn(s1, expiryDate, policy, t1)
    ensures NoBetter(s1, s0)
  {
    assert DayOf(t0) <= DayOf(t1);
  }
}
