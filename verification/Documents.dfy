/**
  DocumentsService: create, update and archive of documents, with the cached expiry status, manual
  overrides and the audit entries written in the same transaction.
*/
module Documents {
  import opened Wrappers
  import opened Calendar
  import opened Expiry
  import opened RowLocking
  import opened RowTable

  type Text = string

  /** The statuses a client may set by hand. */
  type ManualStatus = s: ExpiryStatus | IsOverride(s) witness EXCEPTION

  datatype DocFields = DocFields(
    employeeId: nat, docType: Text, docNumber: Text, issueDate: Option<Text>, expiryDate: Option<Text>,
    expiryStatus: ExpiryStatus, exceptionReason: Option<Text>, renewalStartedAt: Option<Clock>)

  datatype CreateDto = CreateDto(
    employeeId: nat, docType: Text, docNumber: Text, issueDate: Option<Text>, expiryDate: Option<Text>)

  datatype UpdateDto = UpdateDto(
    docNumber: Option<Text>, issueDate: Option<Text>, expiryDate: Option<Text>,
    expiryStatus: Option<ManualStatus>, exceptionReason: Option<Text>)

  type Policies = map<Text, Policy>
  type DocRow = Row<DocFields>
  type DocEvent = Event<DocFields, CreateDto, UpdateDto>
  type DocAction = Action<CreateDto, UpdateDto>
  type DocState = State<DocFields, CreateDto, UpdateDto>
  type DocService = Service<DocFields, CreateDto, UpdateDto>

  /** The policy of a tenant for a document type, or the built-in default. */
  function LoadPolicy(policies: Policies, docType: Text): Policy {
    if docType in policies then policies[docType] else DEFAULT_POLICY
  }

  function DateOf(expiryDate: Option<Text>): Option<DateValue> {
    if expiryDate.Some? then Some(DateValue.Text(expiryDate.value)) else None
  }

  /** The status the engine computes now for a date, a type and the status on record. */
  function Recompute(policies: Policies, docType: Text, expiryDate: Option<Text>, current: ExpiryStatus, now: Clock): ExpiryStatus {
    CalculateStatus(DateOf(expiryDate), LoadPolicy(policies, docType), current, now)
  }

  function CreateFields(policies: Policies, dto: CreateDto, now: Clock): DocFields {
    DocFields(dto.employeeId, dto.docType, dto.docNumber, dto.issueDate, dto.expiryDate,
              Recompute(policies, dto.docType, dto.expiryDate, VALID, now), None, None)
  }

  /** A request that EXCEPTION comes with a reason; the empty string is none. */
  predicate Accepts(dto: UpdateDto) {
    dto.expiryStatus == Some(EXCEPTION) ==> dto.exceptionReason.Some? && dto.exceptionReason.value != ""
  }

  function UpdateFields(policies: Policies, before: DocFields, dto: UpdateDto, now: Clock): DocFields {
    var nextExpiryDate := Coalesce(dto.expiryDate, before.expiryDate);
    var manual := dto.expiryStatus;
    before.(
      docNumber := if dto.docNumber.Some? then dto.docNumber.value else before.docNumber,
      issueDate := Coalesce(dto.issueDate, before.issueDate),
      expiryDate := nextExpiryDate,
      expiryStatus := if manual.Some? then manual.value
                      else Recompute(policies, before.docType, nextExpiryDate, before.expiryStatus, now),
      exceptionReason := if manual == Some(EXCEPTION) then dto.exceptionReason else before.exceptionReason,
      renewalStartedAt := if manual == Some(RENEWAL_IN_PROGRESS) then Some(now) else before.renewalStartedAt)
  }

  /** The request that two requests in a row amount to; a reason goes with the override that it explains. */
  function Over(p: UpdateDto, q: UpdateDto): UpdateDto {
    UpdateDto(Coalesce(q.docNumber, p.docNumber), Coalesce(q.issueDate, p.issueDate), Coalesce(q.expiryDate, p.expiryDate),
              Coalesce(q.expiryStatus, p.expiryStatus), if q.expiryStatus.Some? then q.exceptionReason else p.exceptionReason)
  }

  /** The second request replaces an override of the first by the other one, whose own note thereby stays on the row. */
  predicate LeavesNote(f: DocFields, p: UpdateDto, q: UpdateDto, now: Clock) {
    || (p.expiryStatus == Some(EXCEPTION) && q.expiryStatus == Some(RENEWAL_IN_PROGRESS) && p.exceptionReason != f.exceptionReason)
    || (p.expiryStatus == Some(RENEWAL_IN_PROGRESS) && q.expiryStatus == Some(EXCEPTION) && f.renewalStartedAt != Some(now))
  }

  /**
    Two updates at one moment have the effect of the request that merges them, recomputed status included, if and
    only if the second does not replace an override of the first by the other one and so leave its note behind.
  */
  lemma UpdatesCompose(policies: Policies, f: DocFields, p: UpdateDto, q: UpdateDto, now: Clock)
    ensures UpdateFields(policies, UpdateFields(policies, f, p, now), q, now) == UpdateFields(policies, f, Over(p, q), now)
       <==> !LeavesNote(f, p, q, now)
  {
    var f1 := UpdateFields(policies, f, p, now);
    var f2, g := UpdateFields(policies, f1, q, now), UpdateFields(policies, f, Over(p, q), now);
    assert f2.expiryDate == g.expiryDate && f2.docNumber == g.docNumber && f2.issueDate == g.issueDate;
    assert f2.expiryStatus == g.expiryStatus by {
      StatusComposes(policies, f, p, q, now);
    }
  }

  /** The engine looks at the status on record only for an override, so recomputing in between makes no difference. */
  lemma StatusComposes(policies: Policies, f: DocFields, p: UpdateDto, q: UpdateDto, now: Clock)
    ensures UpdateFields(policies, UpdateFields(policies, f, p, now), q, now).expiryStatus
         == UpdateFields(policies, f, Over(p, q), now).expiryStatus
  {
    var f1 := UpdateFields(policies, f, p, now);
    var date := Coalesce(q.expiryDate, f1.expiryDate);
    if p.expiryStatus.None? && !IsOverride(f.expiryStatus) {
      RecomputeIsNoOverride(policies, f.docType, f1.expiryDate, f.expiryStatus, now);
      CurrentDoesNotMatter(policies, f.docType, date, f1.expiryStatus, f.expiryStatus, now);
    }
  }

  lemma RecomputeIsNoOverride(policies: Policies, docType: Text, expiryDate: Option<Text>, current: ExpiryStatus, now: Clock)
    requires !IsOverride(current)
    ensures !IsOverride(Recompute(policies, docType, expiryDate, current, now))
  {
  }

  lemma CurrentDoesNotMatter(
    policies: Policies, docType: Text, expiryDate: Option<Text>, s: ExpiryStatus, t: ExpiryStatus, now: Clock)
    requires !IsOverride(s) && !IsOverride(t)
    ensures Recompute(policies, docType, expiryDate, s, now) == Recompute(policies, docType, expiryDate, t, now)
  {
  }

  /** The same request again at the same moment changes nothing more. */
  lemma UpdateIsIdempotent(policies: Policies, f: DocFields, dto: UpdateDto, now: Clock)
    ensures UpdateFields(policies, UpdateFields(policies, f, dto, now), dto, now) == UpdateFields(policies, f, dto, now)
  {
    var g := UpdateFields(policies, f, dto, now);
    if dto.expiryStatus.None? && !IsOverride(f.expiryStatus) {
      RecomputeTwice(policies, f.docType, g.expiryDate, f.expiryStatus, now);
    }
  }

  /** A recomputed status is recomputed to itself. */
  lemma RecomputeTwice(policies: Policies, docType: Text, expiryDate: Option<Text>, current: ExpiryStatus, now: Clock)
    ensures var s := Recompute(policies, docType, expiryDate, current, now);
      Recompute(policies, docType, expiryDate, s, now) == s
  {
  }

  function ServiceOf(policies: Policies): DocService {
    Service((dto, now) => CreateFields(policies, dto, now),
            (before, dto, now) => UpdateFields(policies, before, dto, now),
            dto => Accepts(dto),
            (_, _) => false)
  }

  // ---- what the two requests store ----

  /** A new document holds what its request names, and the status of the day under the tenant's policy for its type. */
  ghost predicate IsCreationOf(policies: Policies, dto: CreateDto, f: DocFields, now: Clock) {
    && f.employeeId == dto.employeeId && f.docType == dto.docType && f.docNumber == dto.docNumber
    && f.issueDate == dto.issueDate && f.expiryDate == dto.expiryDate
    && f.exceptionReason == None && f.renewalStartedAt == None
    && IsStatusOn(f.expiryStatus, dto.expiryDate,
                  if dto.docType in policies then policies[dto.docType] else Policy(90, 60, 30, 14, 0, false), now)
  }

  lemma CreationStores(policies: Policies, dto: CreateDto, now: Clock)
    ensures IsCreationOf(policies, dto, CreateFields(policies, dto, now), now)
  {
    CalculateStatusMeans(dto.expiryDate, LoadPolicy(policies, dto.docType), VALID, now);
  }

  /**
    An updated document holds each value that the request names and keeps each other one. Its status is the one set by
    hand in this request or an earlier one, or else that of the day for the date it now has.
  */
  ghost predicate IsUpdateOf(policies: Policies, before: DocFields, dto: UpdateDto, f: DocFields, now: Clock) {
    && f.employeeId == before.employeeId && f.docType == before.docType
    && (if dto.docNumber.Some? then Some(f.docNumber) == dto.docNumber else f.docNumber == before.docNumber)
    && (if dto.issueDate.Some? then f.issueDate == dto.issueDate else f.issueDate == before.issueDate)
    && (if dto.expiryDate.Some? then f.expiryDate == dto.expiryDate else f.expiryDate == before.expiryDate)
    && (if dto.expiryStatus.Some? then f.expiryStatus == dto.expiryStatus.value
        else if before.expiryStatus == EXCEPTION || before.expiryStatus == RENEWAL_IN_PROGRESS then f.expiryStatus == before.expiryStatus
        else IsStatusOn(f.expiryStatus, f.expiryDate,
                        if f.docType in policies then policies[f.docType] else Policy(90, 60, 30, 14, 0, false), now))
    && f.exceptionReason == (if dto.expiryStatus == Some(EXCEPTION) then dto.exceptionReason else before.exceptionReason)
    && f.renewalStartedAt == (if dto.expiryStatus == Some(RENEWAL_IN_PROGRESS) then Some(now) else before.renewalStartedAt)
  }

  lemma UpdateStores(policies: Policies, before: DocFields, dto: UpdateDto, now: Clock)
    ensures IsUpdateOf(policies, before, dto, UpdateFields(policies, before, dto, now), now)
  {
    var f := UpdateFields(policies, before, dto, now);
    CalculateStatusMeans(f.expiryDate, LoadPolicy(policies, before.docType), before.expiryStatus, now);
  }

  // ---- the cached status ----

  /** The stored status is no worse than the one the engine would give now. */
  ghost predicate CacheIsOptimistic(policies: Policies, f: DocFields, now: Clock) {
    var recomputed := Recompute(policies, f.docType, f.expiryDate, VALID, now);
    !IsOverride(f.expiryStatus) ==> !IsOverride(recomputed) && Rank(f.expiryStatus) <= Rank(recomputed)
  }

  /** EXCEPTION has a reason and RENEWAL_IN_PROGRESS has a start time. */
  predicate OverrideIsExplained(f: DocFields) {
    && (f.expiryStatus == EXCEPTION ==> f.exceptionReason.Some? && f.exceptionReason.value != "")
    && (f.expiryStatus == RENEWAL_IN_PROGRESS ==> f.renewalStartedAt.Some?)
  }

  ghost predicate RowFieldsOk(policies: Policies, f: DocFields, now: Clock) {
    CacheIsOptimistic(policies, f, now) && OverrideIsExplained(f)
  }

  lemma OptimismLasts(policies: Policies, f: DocFields, t0: Clock, t1: Clock)
    requires t0 <= t1 && CacheIsOptimistic(policies, f, t0)
    ensures CacheIsOptimistic(policies, f, t1)
  {
    StatusOnlyWorsens(DateOf(f.expiryDate), LoadPolicy(policies, f.docType), t0, t1);
  }

  lemma FreshIsOptimistic(policies: Policies, f: DocFields, now: Clock)
    requires IsOverride(f.expiryStatus) || f.expiryStatus == Recompute(policies, f.docType, f.expiryDate, VALID, now)
    ensures CacheIsOptimistic(policies, f, now)
  {
    StatusOnlyWorsens(DateOf(f.expiryDate), LoadPolicy(policies, f.docType), now, now);
  }

  lemma UpdateKeepsFieldsOk(policies: Policies, f: DocFields, dto: UpdateDto, now: Clock)
    requires Accepts(dto) && RowFieldsOk(policies, f, now)
    ensures RowFieldsOk(policies, UpdateFields(policies, f, dto, now), now)
  {
    FreshIsOptimistic(policies, UpdateFields(policies, f, dto, now), now);
  }

  lemma ServicePreserves(policies: Policies)
    ensures Preserves(ServiceOf(policies), (f: DocFields, t: Clock) => RowFieldsOk(policies, f, t))
  {
    var svc := ServiceOf(policies);
    forall f: DocFields, t0: Clock, t1: Clock | t0 <= t1 && RowFieldsOk(policies, f, t0)
      ensures RowFieldsOk(policies, f, t1)
    {
      OptimismLasts(policies, f, t0, t1);
    }
    forall n: CreateDto, t: Clock ensures RowFieldsOk(policies, svc.make(n, t), t) {
      FreshIsOptimistic(policies, CreateFields(policies, n, t), t);
    }
    forall f: DocFields, p: UpdateDto, t: Clock | svc.accepts(p) && RowFieldsOk(policies, f, t)
      ensures RowFieldsOk(policies, svc.apply(f, p, t), t)
    {
      UpdateKeepsFieldsOk(policies, f, p, t);
    }
  }

  /**
    In every run, with any clients and any interleaving, and for every policy: a committed status that is not
    a manual override is never worse than a fresh recomputation, and every override is explained.
  */
  lemma StaleCacheIsOptimistic(policies: Policies, now: Clock, trace: seq<DocAction>, id: Id)
    requires Legal(ServiceOf(policies), Init(now), trace)
    ensures var s := Exec(ServiceOf(policies), Init(now), trace);
      id in s.rows ==> var f := s.rows[id].fields;
        && CacheIsOptimistic(policies, f, s.now)
        && (f.expiryStatus != EXCEPTION && f.expiryStatus != RENEWAL_IN_PROGRESS ==>
              forall t :: IsStatusOn(t, f.expiryDate, LoadPolicy(policies, f.docType), s.now) ==> NoBetter(t, f.expiryStatus))
        && (f.expiryStatus == EXCEPTION ==> f.exceptionReason.Some? && f.exceptionReason.value != "")
        && (f.expiryStatus == RENEWAL_IN_PROGRESS ==> f.renewalStartedAt.Some?)
  {
    var ok := (f: DocFields, t: Clock) => RowFieldsOk(policies, f, t);
    ServicePreserves(policies);
    assert AllRowsOk(ServiceOf(policies), Init(now), ok);
    RowsStayOk(ServiceOf(policies), Init(now), trace, ok);
    var s := Exec(ServiceOf(policies), Init(now), trace);
    if id in s.rows {
      OptimisticMeansNoBetter(policies, s.rows[id].fields, s.now);
    }
  }

  lemma OptimisticMeansNoBetter(policies: Policies, f: DocFields, now: Clock)
    ensures CacheIsOptimistic(policies, f, now) && !IsOverride(f.expiryStatus) ==>
      forall t :: IsStatusOn(t, f.expiryDate, LoadPolicy(policies, f.docType), now) ==> NoBetter(t, f.expiryStatus)
  {
    CalculateStatusMeans(f.expiryDate, LoadPolicy(policies, f.docType), VALID, now);
    RankOrders();
  }

  // ---- manual overrides ----

  /**
    From any state that disciplined clients reach: an overridden document stays overridden, and an archived
    document stays as it was archived, whatever such clients do next.
  */
  lemma OverridesAbsorb(policies: Policies, s: DocState, trace: seq<DocAction>, id: Id)
    requires ClientInv(ServiceOf(policies), s) && Legal(ServiceOf(policies), s, trace)
    requires Disciplined(ServiceOf(policies), s, trace) && id in s.rows
    ensures var s' := Exec(ServiceOf(policies), s, trace);
      && id in s'.rows
      && (IsOverride(s.rows[id].fields.expiryStatus) ==> IsOverride(s'.rows[id].fields.expiryStatus))
      && (!s.rows[id].Live() ==> s'.rows[id] == s.rows[id])
  {
    var svc := ServiceOf(policies);
    DisciplineIsEnough(svc, s, trace);
    FaithfulIffGuarded(svc, s, trace);
    StickyFields(svc, s, trace, id, (f: DocFields) => IsOverride(f.expiryStatus));
  }

  /** Without the discipline an override can vanish: its row is rewritten from a copy read before it was set. */
  lemma GuessCanUndoOverride(policies: Policies, now: Clock, dto: CreateDto) returns (trace: seq<DocAction>)
    requires dto.expiryDate.None?
    ensures Legal(ServiceOf(policies), Init(now), trace)
    ensures var s := Exec(ServiceOf(policies), Init(now), trace);
      && 0 in s.rows && s.rows[0].fields.expiryStatus == VALID
      && exists e :: e in Events(s, 0) && e.Updated? && e.patch.expiryStatus == Some(EXCEPTION)
  {
    var rename := UpdateDto(Some("N-2"), None, None, None, None);
    var except := UpdateDto(None, None, None, Some(EXCEPTION), Some("reason"));
    trace := GuessedVersionLosesAnUpdate(ServiceOf(policies), now, dto, rename, except);
    var s := Exec(ServiceOf(policies), Init(now), trace);
    assert Events(s, 0)[1] in Events(s, 0);
  }

  // ---- the audit trail ----

  datatype AuditRow =
    | DocumentCreated(created: DocRow)
    | DocumentUpdated(before: DocRow, after: DocRow)
    | ExpiryStatusChanged(was: ExpiryStatus, became: ExpiryStatus)
    | DocumentArchived(last: DocRow, archived: DocRow)

  /** The entries one request writes: an update that changes the status writes two. */
  function AuditOf(e: DocEvent): seq<AuditRow> {
    match e
    case Created(_, _, after) => [DocumentCreated(after)]
    case Updated(_, _, before, after) =>
      var was, became := before.fields.expiryStatus, after.fields.expiryStatus;
      [DocumentUpdated(before, after)] + (if was != became then [ExpiryStatusChanged(was, became)] else [])
    case Archived(_, before, after) => [DocumentArchived(before, after)]
  }

  function Trail(events: seq<DocEvent>): seq<AuditRow> {
    if events == [] then [] else Trail(events[..|events| - 1]) + AuditOf(events[|events| - 1])
  }

  /** The create and update entries of a trail, in order. */
  function Writes(trail: seq<AuditRow>): seq<AuditRow> {
    if trail == [] then [] else
      var last := trail[|trail| - 1];
      Writes(trail[..|trail| - 1]) + (if last.DocumentCreated? || last.DocumentUpdated? then [last] else [])
  }

  function RowAfter(a: AuditRow): DocRow
    requires a.DocumentCreated? || a.DocumentUpdated?
  {
    if a.DocumentCreated? then a.created else a.after
  }

  /** The status that the creation entry and the EXPIRY_STATUS_CHANGED entries tell, by themselves. */
  function StatusTold(trail: seq<AuditRow>): Option<ExpiryStatus> {
    if trail == [] then None else
      match trail[|trail| - 1]
      case DocumentCreated(created) => Some(created.fields.expiryStatus)
      case ExpiryStatusChanged(_, became) => Some(became)
      case _ => StatusTold(trail[..|trail| - 1])
  }

  /** Entry k holds version k + 1, and an update starts from the row that the entry before it left. */
  ghost predicate Unbroken(writes: seq<AuditRow>) {
    forall k {:trigger writes[k]} :: 0 <= k < |writes| ==>
      && (writes[k].DocumentCreated? || writes[k].DocumentUpdated?)
      && RowAfter(writes[k]).version == k + 1
      && (k == 0 <==> writes[k].DocumentCreated?)
      && (k > 0 ==> (writes[k - 1].DocumentCreated? || writes[k - 1].DocumentUpdated?) && writes[k].before == RowAfter(writes[k - 1]))
  }

  lemma WritesAppend(trail: seq<AuditRow>, a: AuditRow)
    ensures Writes(trail + [a]) == Writes(trail) + (if a.DocumentCreated? || a.DocumentUpdated? then [a] else [])
    ensures StatusTold(trail + [a]) == (if a.DocumentCreated? then Some(a.created.fields.expiryStatus)
                                        else if a.ExpiryStatusChanged? then Some(a.became) else StatusTold(trail))
  {
    assert (trail + [a])[..|trail|] == trail;
  }

  lemma AppendEntries(trail: seq<AuditRow>, e: DocEvent)
    ensures Writes(trail + AuditOf(e)) == Writes(trail) + (if e.Archived? then [] else AuditOf(e)[..1])
    ensures StatusTold(trail + AuditOf(e))
         == (if e.Created? || (e.Updated? && e.before.fields.expiryStatus != e.after.fields.expiryStatus)
             then Some(e.after.fields.expiryStatus) else StatusTold(trail))
  {
    match e
    case Created(_, _, after) => WritesAppend(trail, DocumentCreated(after));
    case Updated(_, _, before, after) =>
      var first := DocumentUpdated(before, after);
      WritesAppend(trail, first);
      if before.fields.expiryStatus != after.fields.expiryStatus {
        var second := ExpiryStatusChanged(before.fields.expiryStatus, after.fields.expiryStatus);
        WritesAppend(trail + [first], second);
        assert trail + AuditOf(e) == trail + [first] + [second];
      }
    case Archived(_, before, after) => WritesAppend(trail, DocumentArchived(before, after));
  }

  /** The trail alone tells the fields, the version and the status of the row. */
  ghost predicate Tells(trail: seq<AuditRow>, row: DocRow) {
    var writes := Writes(trail);
    && writes != [] && Unbroken(writes)
    && RowAfter(writes[|writes| - 1]).fields == row.fields && RowAfter(writes[|writes| - 1]).version == row.version
    && (row.Live() ==> RowAfter(writes[|writes| - 1]) == row)
    && StatusTold(trail) == Some(row.fields.expiryStatus)
  }

  lemma CreationTells(e: DocEvent)
    requires e.Created? && e.after.version == 1
    ensures Tells(AuditOf(e), e.after)
  {
    AppendEntries([], e);
    assert [] + AuditOf(e) == AuditOf(e) && Writes(AuditOf(e)) == [DocumentCreated(e.after)];
  }

  lemma LinkTells(svc: DocService, trail: seq<AuditRow>, row: DocRow, e: DocEvent)
    requires Tells(trail, row) && Link(svc, row, e)
    ensures Tells(trail + AuditOf(e), e.after)
  {
    AppendEntries(trail, e);
    if e.Updated? {
      OneMoreWrite(Writes(trail), DocumentUpdated(e.before, e.after));
      assert AuditOf(e)[..1] == [DocumentUpdated(e.before, e.after)];
    } else {
      assert Writes(trail + AuditOf(e)) == Writes(trail);
    }
  }

  /** One more update entry, from the row that the last one left, keeps the entries unbroken. */
  lemma OneMoreWrite(writes: seq<AuditRow>, entry: AuditRow)
    requires Unbroken(writes) && writes != [] && entry.DocumentUpdated?
    requires var last := RowAfter(writes[|writes| - 1]); entry.before == last && entry.after.version == last.version + 1
    ensures Unbroken(writes + [entry])
  {
    var longer := writes + [entry];
    assert forall k :: 0 <= k < |writes| ==> longer[k] == writes[k];
  }

  lemma {:induction false} ChainTellsItsRow(svc: DocService, events: seq<DocEvent>)
    requires Chain(svc, events) && events != []
    ensures Tells(Trail(events), events[|events| - 1].after)
  {
    var front, e := events[..|events| - 1], events[|events| - 1];
    if front == [] {
      assert Trail(events) == AuditOf(e);
      CreationTells(e);
    } else {
      ChainTellsItsRow(svc, front);
      assert Link(svc, events[|events| - 2].after, e);
      LinkTells(svc, Trail(front), front[|front| - 1].after, e);
    }
  }

  /**
    When no audit write fails, after any run of disciplined clients the create and update entries of a document
    form an unbroken chain of versions 1..n that ends in the stored fields and version, and the status changes
    alone tell the stored status.
  */
  lemma AuditTellsTheDocument(policies: Policies, now: Clock, trace: seq<DocAction>, id: Id)
    requires Legal(ServiceOf(policies), Init(now), trace) && Disciplined(ServiceOf(policies), Init(now), trace)
    ensures var s := Exec(ServiceOf(policies), Init(now), trace); id in s.rows ==>
      var writes := Writes(Trail(Events(s, id)));
      && Unbroken(writes) && writes != [] && |writes| == s.rows[id].version
      && RowAfter(writes[|writes| - 1]).fields == s.rows[id].fields
      && StatusTold(Trail(Events(s, id))) == Some(s.rows[id].fields.expiryStatus)
      && (!s.rows[id].Live() ==> LastArchives(Trail(Events(s, id)), s.rows[id]))
  {
    var svc := ServiceOf(policies);
    NoLostUpdates(svc, now, trace);
    var s := Exec(svc, Init(now), trace);
    assert RowOk(svc, s, id);
    if id in s.rows {
      ChainTellsItsRow(svc, Events(s, id));
      ArchiveIsLast(svc, Events(s, id));
    }
  }

  /** The trail of an archived document ends with its archive entry, which holds the row as archived. */
  ghost predicate LastArchives(trail: seq<AuditRow>, row: DocRow) {
    trail != [] && trail[|trail| - 1].DocumentArchived? && trail[|trail| - 1].archived == row
  }

  lemma ArchiveIsLast(svc: DocService, events: seq<DocEvent>)
    requires Chain(svc, events) && events != []
    ensures var row := events[|events| - 1].after; !row.Live() ==> LastArchives(Trail(events), row)
  {
    var n := |events| - 1;
    if n > 0 {
      assert Link(svc, events[n - 1].after, events[n]);
    }
  }

  // ---- the service ----

  /**
    The three requests, statement by statement. Each method runs one request while no other transaction holds
    its row; db.trace shows that the call is a run of the machine, to which the lemmas above apply.
  */
  class DocumentsService {
    const db: Table<DocFields, CreateDto, UpdateDto>
    const policies: Policies

    ghost predicate Valid()
      reads db
    {
      db.Valid() && db.svc == ServiceOf(policies)
    }

    constructor (policies: Policies, now: Clock)
      ensures Valid() && fresh(db) && this.policies == policies && db.Snapshot() == Init(now)
    {
      this.policies := policies;
      db := new Table(ServiceOf(policies), now);
    }

    method Create(tx: TxId, id: Id, employeeFound: bool, dto: CreateDto) returns (r: Reply<DocRow>)
      requires Valid() && tx !in db.txs && id !in db.rows && id !in db.holders
      modifies db
      ensures Valid() && old(db.trace) <= db.trace && db.now == old(db.now)
      ensures db.txs == old(db.txs) && db.holders == old(db.holders)
      ensures !employeeFound ==> r == NotFound && db.Snapshot() == old(db.Snapshot())
      ensures employeeFound ==>
        && r.Done?
        && r.value == Row(CreateFields(policies, dto, db.now), 1, None)
        && db.rows == old(db.rows)[id := r.value]
        && db.audit == old(db.audit)[id := Events(old(db.Snapshot()), id) + [Created(dto, db.now, r.value)]]
      ensures r.Done? ==> IsCreationOf(policies, dto, r.value.fields, db.now)
    {
      CreationStores(policies, dto, db.now);
      if !employeeFound {
        return NotFound;
      }
      var created := db.Insert(tx, id, dto);
      db.Commit(tx);
      return Done(created.value);
    }

    method Update(tx: TxId, id: Id, version: int, dto: UpdateDto) returns (r: Reply<DocRow>)
      requires Valid() && tx !in db.txs && id !in db.holders
      modifies db
      ensures Valid() && old(db.trace) <= db.trace && db.now == old(db.now)
      ensures db.txs == old(db.txs) && db.holders == old(db.holders)
      ensures var found := LiveRow(old(db.Snapshot()), id);
        r == if !Accepts(dto) then BadRequest
             else if found.None? then NotFound
             else if found.value.version != version then Conflict
             else Done(Row(UpdateFields(policies, found.value.fields, dto, db.now), version + 1, None))
      ensures !r.Done? ==> db.rows == old(db.rows) && db.audit == old(db.audit)
      ensures r.Done? ==>
        && db.rows == old(db.rows)[id := r.value]
        && db.audit == old(db.audit)[id := Events(old(db.Snapshot()), id) + [Updated(dto, db.now, old(db.rows)[id], r.value)]]
      ensures r.Done? ==> IsUpdateOf(policies, old(db.rows)[id].fields, dto, r.value.fields, db.now)
    {
      if id in db.rows {
        UpdateStores(policies, db.rows[id].fields, dto, db.now);
      }
      if dto.expiryStatus == Some(EXCEPTION) && (dto.exceptionReason.None? || dto.exceptionReason.value == "") {
        return BadRequest;
      }
      r := db.UpdateRequest(tx, id, version, dto);
    }

    method Archive(tx: TxId, id: Id) returns (r: Reply<Clock>)
      requires Valid() && tx !in db.txs && id !in db.holders
      modifies db
      ensures Valid() && old(db.trace) <= db.trace && db.now == old(db.now)
      ensures db.txs == old(db.txs) && db.holders == old(db.holders)
      ensures r == if LiveRow(old(db.Snapshot()), id).None? then NotFound else Done(db.now)
      ensures !r.Done? ==> db.rows == old(db.rows) && db.audit == old(db.audit)
      ensures r.Done? ==>
        var before := old(db.rows)[id]; var after := before.(deletedAt := Some(db.now));
        && db.rows == old(db.rows)[id := after]
        && db.audit == old(db.audit)[id := Events(old(db.Snapshot()), id) + [Archived(db.now, before, after)]]
    {
      r := db.ArchiveRequest(tx, id);
    }
  }
}
