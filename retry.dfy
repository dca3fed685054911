// The retry side of the failed-event queue: `_retry_sync`, `action_retry`,
// `cron_retry_failed_events` and `action_retry_selected`.

module Retry {
  import opened Wrappers
  import Seqs
  import opened Text
  import opened Dates
  import opened Domain
  import opened EventQueue
  import opened SyncService
  import opened ElisPartner

  const PartnerMissing := "Partner not found for this event."
  const PatientFailure := "Patient sync returned failure status. See logs or updated event for details."
  const SaleOrderMissing := "Sale order not found for this event."
  const ProductIdMissing := "Product ID not found in payload."
  const AlreadyProcessed := "This event has already been successfully processed."
  const CronBatchSize := 50
  /** Minutes of backoff per failed attempt. */
  const BackoffStep := 15

  /** What a retry reads besides the queue: the settings, the records it syncs, today's date and
      the clock (in minutes). */
  datatype RetryEnv = RetryEnv(cfg: Config, w: World, today: CalendarDate, now: Time)

  /** An exception caught by `_retry_sync`: its class name and its text. */
  datatype Failure = Failure(className: string, message: string)

  function RetryFailedText(message: string): string {
    "Retry failed: " + message
  }

  function ProductMissingText(pid: nat): string {
    "Product not found (ID: " + IntToString(pid) + ")"
  }

  /** The product id `_get_payload_dict().get('id')` finds, 0 when there is none. */
  function PayloadProductId(p: Payload): nat {
    if p.LabTestPayload? then p.productId else 0
  }

  /** The patient branch of the try block of `_retry_sync`. */
  ghost function PatientInner(s: Store, e: Event, env: RetryEnv, outcome: Outcome): (Store, Option<Failure>) {
    if e.partnerId.None? || e.partnerId.value !in env.w.partners then (s, Some(Failure("UserError", PartnerMissing)))
    else
      var (t, r) := SyncPatientSpec(s, env.cfg, env.w.partners[e.partnerId.value], env.today, outcome, env.now);
      (t, Some(if r.Err? then Failure(r.className, r.message) else Failure("UserError", PatientFailure)))
  }

  /** The sale order a test-order retry syncs, when it still exists. */
  function RetriedOrder(e: Event, w: World): Option<SaleOrder> {
    if e.saleOrderId.Some? && e.saleOrderId.value in w.saleOrders then Some(w.saleOrders[e.saleOrderId.value]) else None
  }

  /** The test-order branch: the sync runs with the event's sale order in the context. */
  ghost function TestOrderInner(s: Store, e: Event, env: RetryEnv, outcome: Outcome): (Store, Option<Failure>) {
    match RetriedOrder(e, env.w)
    case None => (s, Some(Failure("UserError", SaleOrderMissing)))
    case Some(o) =>
      var (t, reply) := SyncTestOrderSpec(s, env.cfg, e.saleOrderId, env.w, o, outcome, env.now);
      (t, if reply.status == "success" then None else Some(Failure("UserError", RetryFailedText(reply.message))))
  }

  /** The product a lab-test retry syncs, when its payload names one that exists. */
  function RetriedProduct(e: Event, w: World): Option<Product> {
    var pid := PayloadProductId(e.payload);
    if pid != 0 && pid as RecordId in w.products then Some(w.products[pid as RecordId]) else None
  }

  /** The lab-test branch: the sync runs with no context order. */
  ghost function LabTestInner(s: Store, e: Event, env: RetryEnv, outcome: Outcome): (Store, Option<Failure>) {
    var pid := PayloadProductId(e.payload);
    if pid == 0 then (s, Some(Failure("UserError", ProductIdMissing)))
    else if pid as RecordId !in env.w.products then (s, Some(Failure("UserError", ProductMissingText(pid))))
    else
      var (t, reply) := SyncLabTestSpec(s, env.cfg, None, env.w, Some(env.w.products[pid as RecordId]), outcome, env.now);
      (t, if reply.status == "success" then None else Some(Failure("UserError", RetryFailedText(reply.message))))
  }

  /** The try block of `_retry_sync` for the event `e` as it reads after the retrying write:
      the store after the inner sync, and the exception it ends with, None for success. */
  ghost function InnerSync(s: Store, e: Event, env: RetryEnv, outcome: Outcome): (Store, Option<Failure>) {
    match e.eventType
    case Patient => PatientInner(s, e, env, outcome)
    case TestOrder => TestOrderInner(s, e, env, outcome)
    case LabTest => LabTestInner(s, e, env, outcome)
  }

  /** The admission a test-order retry's sync files, if any. */
  function TestOrderAdmission(e: Event, env: RetryEnv, o: SaleOrder, outcome: Outcome): Option<Admission> {
    var lines := Seqs.Filter(o.lines, IsLabOrPanelLine);
    if TestOrderGuard(env.cfg, o, lines).Some? then None
    else ApiDecision(env.cfg, e.saleOrderId, env.w, TestOrderPayloadOf(o, lines), TestOrder, TestOrderEndpoint, outcome).admission
  }

  /** The admission a lab-test retry's sync files, if any. */
  function LabTestAdmission(env: RetryEnv, product: Product, outcome: Outcome): Option<Admission> {
    if LabTestGuard(env.cfg, Some(product)).Some? then None
    else ApiDecision(env.cfg, None, env.w, LabTestPayloadOf(product), LabTest, LabTestEndpoint, outcome).admission
  }

  lemma PatientInnerFrame(s: Store, e: Event, env: RetryEnv, outcome: Outcome)
    requires QueueInvariant(s)
    ensures QueueInvariant(PatientInner(s, e, env, outcome).0)
    ensures s.events.Keys <= PatientInner(s, e, env, outcome).0.events.Keys
    ensures PatientInner(s, e, env, outcome).1.Some?
  {
    if e.partnerId.Some? && e.partnerId.value in env.w.partners {
      SyncPatientFrame(s, env.cfg, env.w.partners[e.partnerId.value], env.today, outcome, env.now);
    }
  }

  /** A test-order retry changes the queue exactly by the admission its sync files, and ends
      without an exception only when it filed none. */
  lemma TestOrderInnerFrame(s: Store, e: Event, env: RetryEnv, outcome: Outcome)
    requires QueueInvariant(s)
    ensures var (t, f) := TestOrderInner(s, e, env, outcome);
      && QueueInvariant(t) && s.events.Keys <= t.events.Keys
      && (RetriedOrder(e, env.w).None? ==> t == s && f.Some?)
      && (RetriedOrder(e, env.w).Some? ==>
            t == AdmitIf(s, TestOrderAdmission(e, env, RetriedOrder(e, env.w).value, outcome), env.now)
            && (TestOrderAdmission(e, env, RetriedOrder(e, env.w).value, outcome).Some? ==> f.Some?))
      && (f.None? ==> t == s)
  {
    match RetriedOrder(e, env.w)
    case None =>
    case Some(o) =>
      var lines := Seqs.Filter(o.lines, IsLabOrPanelLine);
      if TestOrderGuard(env.cfg, o, lines).None? {
        var step := ApiDecision(env.cfg, e.saleOrderId, env.w, TestOrderPayloadOf(o, lines), TestOrder, TestOrderEndpoint, outcome);
        if step.admission.Some? {
          AdmitPreservesInvariant(s, step.admission.value, env.now);
          AdmitFrame(s, step.admission.value, env.now);
        }
      }
  }

  /** The same for a lab-test retry. */
  lemma LabTestInnerFrame(s: Store, e: Event, env: RetryEnv, outcome: Outcome)
    requires QueueInvariant(s)
    ensures var (t, f) := LabTestInner(s, e, env, outcome);
      && QueueInvariant(t) && s.events.Keys <= t.events.Keys
      && (RetriedProduct(e, env.w).None? ==> t == s && f.Some?)
      && (RetriedProduct(e, env.w).Some? ==>
            t == AdmitIf(s, LabTestAdmission(env, RetriedProduct(e, env.w).value, outcome), env.now)
            && (LabTestAdmission(env, RetriedProduct(e, env.w).value, outcome).Some? ==> f.Some?))
      && (f.None? ==> t == s)
  {
    match RetriedProduct(e, env.w)
    case None =>
    case Some(product) =>
      if LabTestGuard(env.cfg, Some(product)).None? {
        var step := ApiDecision(env.cfg, None, env.w, LabTestPayloadOf(product), LabTest, LabTestEndpoint, outcome);
        if step.admission.Some? {
          AdmitPreservesInvariant(s, step.admission.value, env.now);
          AdmitFrame(s, step.admission.value, env.now);
        }
      }
  }

  /** The inner sync files failures only through admissions: it keeps the invariant and every
      stored event, and when it ends without an exception it has left the queue alone. */
  lemma InnerSyncFrame(s: Store, e: Event, env: RetryEnv, outcome: Outcome)
    requires QueueInvariant(s)
    ensures var (t, f) := InnerSync(s, e, env, outcome);
      && QueueInvariant(t) && s.events.Keys <= t.events.Keys
      && (f.None? ==> t == s)
  {
    match e.eventType
    case Patient => PatientInnerFrame(s, e, env, outcome);
    case TestOrder => TestOrderInnerFrame(s, e, env, outcome);
    case LabTest => LabTestInnerFrame(s, e, env, outcome);
  }

  /** The event as the retrying write leaves it. */
  function MarkedRetrying(e: Event, now: Time): (r: Event)
    ensures r.state == EventState.Retrying && r.lastRetryDate == Some(now) && r.retryCount == e.retryCount + 1
    ensures r.sequenceNumber == e.sequenceNumber
    ensures r.(state := e.state, lastRetryDate := e.lastRetryDate, retryCount := e.retryCount) == e
  {
    e.(state := EventState.Retrying, lastRetryDate := Some(now), retryCount := e.retryCount + 1)
  }

  /** The store after the retrying write on `k`. */
  function RetryingStore(s: Store, k: EventId, now: Time): (r: Store)
    requires k in s.events
    ensures r.events == s.events[k := MarkedRetrying(s.events[k], now)] && r.nextId == s.nextId
  {
    Store(s.events[k := MarkedRetrying(s.events[k], now)], s.nextId)
  }

  /** Minutes until the next attempt for an event whose retry count reads `c`. */
  function Backoff(c: nat): (m: nat)
    ensures m >= BackoffStep && m % BackoffStep == 0
    ensures c > 0 ==> m == BackoffStep * c
  {
    BackoffStep * (if c == 0 then 1 else c)
  }

  /** The event as the failure handler leaves it: it reads the record as the inner sync left it. */
  function FailedWith(e: Event, f: Failure, now: Time): (r: Event)
    ensures r.state == Failed && r.errorMessage == f.message && r.errorType == f.className
    ensures r.nextRetryDate == Some(now + Backoff(e.retryCount))
    ensures r.retryCount == e.retryCount && r.lastRetryDate == e.lastRetryDate && r.sequenceNumber == e.sequenceNumber
    ensures r.(state := e.state, errorMessage := e.errorMessage, errorType := e.errorType, nextRetryDate := e.nextRetryDate) == e
  {
    e.(state := Failed, errorMessage := f.message, errorType := f.className, nextRetryDate := Some(now + Backoff(e.retryCount)))
  }

  /** What `_retry_sync` does once the inner sync has ended: on success, mark the event done and
      unlink it; on an exception, mark it failed with that exception. */
  ghost function AfterInner(t: Store, k: EventId, f: Option<Failure>, now: Time): (r: (Store, bool))
    requires QueueInvariant(t) && k in t.events && Unresolved(t.events[k])
    ensures QueueInvariant(r.0)
    ensures forall j :: j in t.events && j != k ==> j in r.0.events
    ensures r.1 <==> f.None?
    ensures r.1 <==> k !in r.0.events
    ensures !r.1 ==> r.0.events[k].state == Failed
  {
    match f
    case None =>
      RemovalPreservesInvariant(t, Unlinked(t.events, {k}));
      (Store(Unlinked(t.events, {k}), t.nextId), true)
    case Some(x) =>
      UpdatePreservesInvariant(t, k, FailedWith(t.events[k], x, now));
      (Store(t.events[k := FailedWith(t.events[k], x, now)], t.nextId), false)
  }

  /** `_retry_sync` on the stored event `k`, delivering with `outcome`: the store after it, and
      its return value. */
  ghost function RetrySpec(s: Store, k: EventId, env: RetryEnv, outcome: Outcome): (r: (Store, bool))
    requires QueueInvariant(s) && k in s.events
    ensures QueueInvariant(r.0)
    ensures forall j :: j in s.events && j != k ==> j in r.0.events
    ensures s.events[k].state != Success ==> (r.1 <==> k !in r.0.events)
    ensures !r.1 ==> r.0.events[k].state == Failed
  {
    if s.events[k].state == Success then (s, true)
    else
      var s1 := RetryingStore(s, k, env.now);
      UpdatePreservesInvariant(s, k, s1.events[k]);
      InnerSyncFrame(s1, s1.events[k], env, outcome);
      var (t, f) := InnerSync(s1, s1.events[k], env, outcome);
      AfterInner(t, k, f, env.now)
  }

  /** The steps of a retry of an event not in the success state. */
  lemma RetrySteps(s: Store, k: EventId, env: RetryEnv, outcome: Outcome)
    requires QueueInvariant(s) && k in s.events && s.events[k].state != Success
    ensures var s1 := RetryingStore(s, k, env.now);
      var (t, f) := InnerSync(s1, s1.events[k], env, outcome);
      && QueueInvariant(s1) && QueueInvariant(t) && s1.events.Keys <= t.events.Keys
      && (f.None? ==> t == s1)
      && RetrySpec(s, k, env, outcome) == AfterInner(t, k, f, env.now)
  {
    var s1 := RetryingStore(s, k, env.now);
    UpdatePreservesInvariant(s, k, s1.events[k]);
    InnerSyncFrame(s1, s1.events[k], env, outcome);
  }

  /** A successful retry deletes its event and nothing else: the queue is as before minus `k`. */
  lemma RetrySuccessRemovesEvent(s: Store, k: EventId, env: RetryEnv, outcome: Outcome)
    requires QueueInvariant(s) && k in s.events && s.events[k].state != Success
    requires RetrySpec(s, k, env, outcome).1
    ensures RetrySpec(s, k, env, outcome).0 == Store(s.events - {k}, s.nextId)
  {
    RetrySteps(s, k, env, outcome);
    var s1 := RetryingStore(s, k, env.now);
    assert s1.events - {k} == s.events - {k};
  }

  /** A failed retry leaves its event failed with the caught exception's class and text, due
      again after a backoff of 15 minutes per attempt counted on the record when the handler
      reads it; when the inner sync filed no admission, that count is one more than before the
      retry and the last-retry date is now. */
  lemma RetryFailureRecordsError(s: Store, k: EventId, env: RetryEnv, outcome: Outcome)
    requires QueueInvariant(s) && k in s.events && s.events[k].state != Success
    requires !RetrySpec(s, k, env, outcome).1
    ensures var s1 := RetryingStore(s, k, env.now);
      var inner := InnerSync(s1, s1.events[k], env, outcome);
      var r := RetrySpec(s, k, env, outcome).0;
      && FailedByHandler(r, inner.0, k, inner.1, env.now)
      && (inner.0 == s1 ==> r.events[k].retryCount == s.events[k].retryCount + 1 && r.events[k].lastRetryDate == Some(env.now))
  {
    RetrySteps(s, k, env, outcome);
    var s1 := RetryingStore(s, k, env.now);
    var inner := InnerSync(s1, s1.events[k], env, outcome);
    AfterInnerFailed(inner.0, k, inner.1, env.now);
  }

  /** `r` is the store `t` with `k` written by the failure handler for the exception `f`. */
  ghost predicate FailedByHandler(r: Store, t: Store, k: EventId, f: Option<Failure>, now: Time) {
    f.Some? && k in t.events && r == Store(t.events[k := FailedWith(t.events[k], f.value, now)], t.nextId)
  }

  /** The success path on its own. */
  lemma AfterInnerSucceeded(t: Store, k: EventId, now: Time)
    requires QueueInvariant(t) && k in t.events && Unresolved(t.events[k])
    ensures AfterInner(t, k, None, now) == (Store(Unlinked(t.events, {k}), t.nextId), true)
  {
  }

  /** The failure handler on its own. */
  lemma AfterInnerFailed(t: Store, k: EventId, f: Option<Failure>, now: Time)
    requires QueueInvariant(t) && k in t.events && Unresolved(t.events[k]) && f.Some?
    ensures AfterInner(t, k, f, now) == (Store(t.events[k := FailedWith(t.events[k], f.value, now)], t.nextId), false)
  {
  }

  /** A patient retry never succeeds: `_sync_patient_to_openelis` returns None on every path
      that does not raise, so the retry raises itself. */
  lemma PatientRetryNeverSucceeds(s: Store, k: EventId, env: RetryEnv, outcome: Outcome)
    requires QueueInvariant(s) && k in s.events
    requires s.events[k].eventType == Patient && s.events[k].state != Success
    ensures !RetrySpec(s, k, env, outcome).1
    ensures k in RetrySpec(s, k, env, outcome).0.events
  {
    RetrySteps(s, k, env, outcome);
    var s1 := RetryingStore(s, k, env.now);
    PatientInnerFrame(s1, s1.events[k], env, outcome);
  }

  /** The event `k` is failed with its count reset by a re-admission: count 0, no last-retry
      date, due again 15 minutes after `now`, and still under the sequence number of `before`. */
  ghost predicate ResetBackoff(r: Store, k: EventId, before: Event, now: Time) {
    && k in r.events && r.events[k].state == Failed && r.events[k].retryCount == 0
    && r.events[k].nextRetryDate == Some(now + BackoffStep) && r.events[k].lastRetryDate.None?
    && r.events[k].sequenceNumber == before.sequenceNumber
  }

  /** When a retry's inner sync files an admission that matches the event being retried, the
      admission overwrites it: the handler then reads a retry count of 0 and schedules the next
      attempt 15 minutes out, whatever the count was. */
  lemma RetryAfterReadmission(s: Store, k: EventId, env: RetryEnv, outcome: Outcome, a: Admission)
    requires QueueInvariant(s) && k in s.events && s.events[k].state != Success
    requires Keyed(a) && Matches(RetryingStore(s, k, env.now).events[k], a)
    requires InnerSync(RetryingStore(s, k, env.now), RetryingStore(s, k, env.now).events[k], env, outcome).0
             == Admit(RetryingStore(s, k, env.now), a, env.now)
    requires InnerSync(RetryingStore(s, k, env.now), RetryingStore(s, k, env.now).events[k], env, outcome).1.Some?
    ensures var (r, ok) := RetrySpec(s, k, env, outcome);
      !ok && ResetBackoff(r, k, s.events[k], env.now)
  {
    var s1 := RetryingStore(s, k, env.now);
    RetrySteps(s, k, env, outcome);
    var inner := InnerSync(s1, s1.events[k], env, outcome);
    ReadmittedFailure(s1, inner.0, k, a, inner.1, env.now);
    assert RetrySpec(s, k, env, outcome) == AfterInner(inner.0, k, inner.1, env.now);
  }

  /** The failure handler after an admission that overwrote the event being retried. */
  lemma ReadmittedFailure(s1: Store, t: Store, k: EventId, a: Admission, f: Option<Failure>, now: Time)
    requires QueueInvariant(s1) && k in s1.events && Keyed(a) && Matches(s1.events[k], a)
    requires t == Admit(s1, a, now) && f.Some?
    ensures QueueInvariant(t) && k in t.events && Unresolved(t.events[k])
    ensures var (r, ok) := AfterInner(t, k, f, now);
      !ok && ResetBackoff(r, k, s1.events[k], now)
  {
    ReadmissionRefreshes(s1, k, a, now);
    AdmitPreservesInvariant(s1, a, now);
    AfterInnerFailed(t, k, f, now);
    assert Backoff(0) == BackoffStep;
  }

  /** A test-order retry whose sync files its failure re-admits the event being retried, since
      the admission is keyed by the event's own sale order. */
  lemma TestOrderReadmissionResetsBackoff(s: Store, k: EventId, env: RetryEnv, outcome: Outcome)
    requires QueueInvariant(s) && k in s.events
    requires s.events[k].eventType == TestOrder && s.events[k].state != Success
    requires RetriedOrder(s.events[k], env.w).Some?
    requires TestOrderAdmission(s.events[k], env, RetriedOrder(s.events[k], env.w).value, outcome).Some?
    ensures var (r, ok) := RetrySpec(s, k, env, outcome);
      !ok && ResetBackoff(r, k, s.events[k], env.now)
  {
    var s1 := RetryingStore(s, k, env.now);
    var e1 := s1.events[k];
    UpdatePreservesInvariant(s, k, e1);
    TestOrderInnerFrame(s1, e1, env, outcome);
    var a := TestOrderAdmission(e1, env, RetriedOrder(e1, env.w).value, outcome).value;
    TestOrderAdmissionKeyed(e1, env, RetriedOrder(e1, env.w).value, outcome);
    RetryAfterReadmission(s, k, env, outcome, a);
  }

  lemma TestOrderAdmissionKeyed(e: Event, env: RetryEnv, o: SaleOrder, outcome: Outcome)
    requires e.saleOrderId.Some? && TestOrderAdmission(e, env, o, outcome).Some?
    ensures var a := TestOrderAdmission(e, env, o, outcome).value;
      a.eventType == TestOrder && a.saleOrderId == e.saleOrderId
  {
  }

  /** All lab tests share one unresolved event, so a lab-test retry whose sync files its
      failure re-admits the event being retried. */
  lemma LabTestReadmissionResetsBackoff(s: Store, k: EventId, env: RetryEnv, outcome: Outcome)
    requires QueueInvariant(s) && k in s.events
    requires s.events[k].eventType == LabTest && s.events[k].state != Success
    requires RetriedProduct(s.events[k], env.w).Some?
    requires LabTestAdmission(env, RetriedProduct(s.events[k], env.w).value, outcome).Some?
    ensures var (r, ok) := RetrySpec(s, k, env, outcome);
      !ok && ResetBackoff(r, k, s.events[k], env.now)
  {
    var s1 := RetryingStore(s, k, env.now);
    var e1 := s1.events[k];
    UpdatePreservesInvariant(s, k, e1);
    LabTestInnerFrame(s1, e1, env, outcome);
    var a := LabTestAdmission(env, RetriedProduct(e1, env.w).value, outcome).value;
    RetryAfterReadmission(s, k, env, outcome, a);
  }

  /** An admission whose earliest match is `k` refreshes `k` in place. */
  lemma ReadmissionRefreshes(s: Store, k: EventId, a: Admission, now: Time)
    requires QueueInvariant(s) && k in s.events && Unresolved(s.events[k]) && Matches(s.events[k], a)
    requires Keyed(a)
    ensures var t := Admit(s, a, now);
      && k in t.events && t.events[k].retryCount == 0 && t.events[k].state == Pending
      && t.events[k].lastRetryDate.None? && t.events[k].nextRetryDate.None?
      && t.events[k].sequenceNumber == s.events[k].sequenceNumber
  {
    KeyedMatchIsUnique(s, a, k);
    AdmitUpdatesExisting(s, a, now, k);
  }

  /** Any unresolved lab-test event is the one lab-test admissions match first. */
  lemma LabTestMatchIsUnique(s: Store, k: EventId, a: Admission)
    requires QueueInvariant(s) && k in s.events && Unresolved(s.events[k]) && Matches(s.events[k], a)
    requires a.eventType == LabTest
    ensures FirstMatch(s.events, a) == Some(k)
  {
    var f := FirstMatch(s.events, a);
    assert k in MatchingIds(s.events, a);
    if f.value != k {
      assert false;
    }
  }

  /** An event is due for the cron: pending or failed, with no next-retry date or one not after now. */
  predicate IsDue(e: Event, now: Time) {
    (e.state == Pending || e.state == Failed) && (e.nextRetryDate.None? || e.nextRetryDate.value <= now)
  }

  function DueIds(m: map<EventId, Event>, now: Time): (r: set<EventId>)
    ensures r <= m.Keys
    ensures forall k :: k in r <==> k in m && IsDue(m[k], now)
  {
    set k | k in m && IsDue(m[k], now)
  }

  /** `search(domain, limit=50, order='sequence_number asc, create_date asc')`. */
  ghost function CronBatch(m: map<EventId, Event>, now: Time): (b: seq<EventId>)
    ensures |b| <= CronBatchSize && forall i :: 0 <= i < |b| ==> b[i] in m
    ensures forall i, j :: 0 <= i < j < |b| ==> b[i] != b[j]
  {
    var r := QueueOrder(m, DueIds(m, now));
    QueueOrderDistinct(m, DueIds(m, now));
    if |r| <= CronBatchSize then r else r[..CronBatchSize]
  }

  /** The cron takes the first 50 due events in table order: each of them is due, none is
      taken twice, and a due event left out comes after every one taken. Hence an event stuck
      in the retrying state is never taken. */
  lemma CronBatchIsEarliestDue(m: map<EventId, Event>, now: Time)
    ensures var b := CronBatch(m, now);
      && |b| <= CronBatchSize
      && (forall i :: 0 <= i < |b| ==> b[i] in m && IsDue(m[b[i]], now))
      && (forall i, j :: 0 <= i < j < |b| ==> b[i] != b[j] && Earlier(m[b[i]], b[i], m[b[j]], b[j]))
      && (forall k :: k in m && IsDue(m[k], now) && k !in b ==>
            |b| == CronBatchSize && forall i :: 0 <= i < |b| ==> Earlier(m[b[i]], b[i], m[k], k))
      && (forall k :: k in m && m[k].state == EventState.Retrying ==> k !in b)
  {
    var due := DueIds(m, now);
    var r := QueueOrder(m, due);
    var b := CronBatch(m, now);
    assert InTableOrder(m, r);
    QueueOrderDistinct(m, due);
    assert forall i :: 0 <= i < |b| ==> b[i] == r[i];
    forall k | k in m && IsDue(m[k], now) && k !in b
      ensures |b| == CronBatchSize && forall i :: 0 <= i < |b| ==> Earlier(m[b[i]], b[i], m[k], k)
    {
      assert k in r;
      var p :| 0 <= p < |r| && r[p] == k;
      assert p >= |b|;
    }
  }

  /** The events `ks[i..]` are still to be retried: each of them is stored, and `ks` names no
      event twice. */
  ghost predicate BatchPending(s: Store, ks: seq<EventId>, i: int) {
    && 0 <= i <= |ks|
    && (forall j :: i <= j < |ks| ==> ks[j] in s.events)
    && (forall a, b :: 0 <= a < b < |ks| ==> ks[a] != ks[b])
  }

  /** Retrying the events `ks[i..]` one after another, each event delivering with `deliver(k)`:
      the store after them all and the number of retries that returned True. */
  ghost function RetryAll(s: Store, ks: seq<EventId>, i: int, env: RetryEnv, deliver: EventId -> Outcome): (r: (Store, nat))
    requires QueueInvariant(s) && BatchPending(s, ks, i)
    ensures QueueInvariant(r.0) && r.1 <= |ks| - i
    decreases |ks| - i
  {
    if i == |ks| then (s, 0)
    else
      var step := RetrySpec(s, ks[i], env, deliver(ks[i]));
      var rest := RetryAll(step.0, ks, i + 1, env, deliver);
      (rest.0, rest.1 + (if step.1 then 1 else 0))
  }

  /** Retrying `ks[i..]` keeps every stored event that is not among them stored (an admission
      made by one of the retries may rewrite it, but nothing deletes it). */
  lemma {:induction false} RetryAllKeepsOthers(s: Store, ks: seq<EventId>, i: int, env: RetryEnv, deliver: EventId -> Outcome, j: EventId)
    requires QueueInvariant(s) && BatchPending(s, ks, i)
    requires j in s.events && forall m :: i <= m < |ks| ==> ks[m] != j
    ensures j in RetryAll(s, ks, i, env, deliver).0.events
    decreases |ks| - i
  {
    if i < |ks| {
      var step := RetrySpec(s, ks[i], env, deliver(ks[i]));
      RetryAllKeepsOthers(step.0, ks, i + 1, env, deliver, j);
    }
  }

  /** `action_retry_selected` on the events `ids`: every selected event retried once, in table
      order; success-state events would be skipped, and no stored event is in that state. */
  ghost function RetrySelectedSpec(s: Store, ids: set<EventId>, env: RetryEnv, deliver: EventId -> Outcome): Store
    requires QueueInvariant(s) && ids <= s.events.Keys
  {
    QueueOrderDistinct(s.events, ids);
    RetryAll(s, QueueOrder(s.events, ids), 0, env, deliver).0
  }

  /** No stored event is in the success state, so `action_retry` never raises on stored events
      and `action_retry_selected` skips none of them. */
  lemma NoStoredSuccess(s: Store, k: EventId)
    requires QueueInvariant(s) && k in s.events
    ensures s.events[k].state != Success
  {
  }

  /** `action_retry_selected` deletes no event outside the selection. */
  lemma RetrySelectedKeepsOthers(s: Store, ids: set<EventId>, env: RetryEnv, deliver: EventId -> Outcome, j: EventId)
    requires QueueInvariant(s) && ids <= s.events.Keys
    requires j in s.events && j !in ids
    ensures j in RetrySelectedSpec(s, ids, env, deliver).events
  {
    QueueOrderDistinct(s.events, ids);
    var order := QueueOrder(s.events, ids);
    assert forall m :: 0 <= m < |order| ==> order[m] in ids;
    RetryAllKeepsOthers(s, order, 0, env, deliver, j);
  }

  /** `_retry_sync`. */
  method RetrySync(store: EventStore, k: EventId, env: RetryEnv, outcome: Outcome) returns (ok: bool)
    requires store.Valid() && k in store.events
    modifies store
    ensures store.Valid()
    ensures (store.State(), ok) == RetrySpec(old(store.State()), k, env, outcome)
  {
    if store.events[k].state == Success {
      return true;
    }
    RetrySteps(store.State(), k, env, outcome);
    var e1 := MarkRetrying(store, k, env.now);
    var failure := InnerSyncRun(store, e1, env, outcome);
    ok := FinishRetry(store, k, failure, env.now);
  }

  /** The first write of `_retry_sync`: state retrying, last-retry date now, one more attempt. */
  method MarkRetrying(store: EventStore, k: EventId, now: Time) returns (e1: Event)
    requires store.Valid() && k in store.events && store.events[k].state != Success
    modifies store
    ensures store.Valid()
    ensures store.State() == RetryingStore(old(store.State()), k, now) && e1 == store.events[k]
  {
    e1 := MarkedRetrying(store.events[k], now);
    UpdatePreservesInvariant(store.State(), k, e1);
    var _ := store.Write(k, e1, true);
  }

  /** The end of `_retry_sync` once the try block has run: mark the event done and unlink it,
      or mark it failed with the caught exception. */
  method FinishRetry(store: EventStore, k: EventId, failure: Option<Failure>, now: Time) returns (ok: bool)
    requires store.Valid() && k in store.events && Unresolved(store.events[k])
    modifies store
    ensures store.Valid()
    ensures (store.State(), ok) == AfterInner(old(store.State()), k, failure, now)
  {
    ghost var t := store.State();
    match failure {
      case None =>
        AfterInnerSucceeded(t, k, now);
        MarkDone(store, k);
        ok := true;
      case Some(f) =>
        AfterInnerFailed(t, k, failure, now);
        MarkFailed(store, k, f, now);
        ok := false;
    }
  }

  /** The success path: write state success, then unlink the event. */
  method MarkDone(store: EventStore, k: EventId)
    requires store.Valid() && k in store.events
    modifies store
    ensures store.Valid()
    ensures store.events == Unlinked(old(store.events), {k}) && store.nextId == old(store.nextId)
  {
    ghost var t := store.State();
    RemovalPreservesInvariant(t, Unlinked(t.events, {k}));
    var done := store.events[k].(state := Success, nextRetryDate := None);
    UnlinkForgetsWrite(t.events, k, done);
    var _ := store.Write(k, done, true);
    store.Unlink({k});
  }

  /** Unlinking an event makes whatever was last written to it irrelevant. */
  lemma UnlinkForgetsWrite(m: map<EventId, Event>, k: EventId, e: Event)
    ensures Unlinked(m[k := e], {k}) == Unlinked(m, {k})
  {
    assert Unlinked(m[k := e], {k}).Keys == Unlinked(m, {k}).Keys;
  }

  /** The failure handler: write the event failed with the caught exception. */
  method MarkFailed(store: EventStore, k: EventId, f: Failure, now: Time)
    requires store.Valid() && k in store.events && Unresolved(store.events[k])
    modifies store
    ensures store.Valid()
    ensures store.events == old(store.events)[k := FailedWith(old(store.events)[k], f, now)] && store.nextId == old(store.nextId)
  {
    UpdatePreservesInvariant(store.State(), k, FailedWith(store.events[k], f, now));
    var _ := store.Write(k, FailedWith(store.events[k], f, now), true);
  }

  /** The try block of `_retry_sync`, up to the point where it either raises or goes on to mark
      the event done. */
  method InnerSyncRun(store: EventStore, e: Event, env: RetryEnv, outcome: Outcome) returns (failure: Option<Failure>)
    requires store.Valid()
    modifies store
    ensures store.Valid()
    ensures (store.State(), failure) == InnerSync(old(store.State()), e, env, outcome)
  {
    match e.eventType {
      case Patient =>
        if e.partnerId.None? || e.partnerId.value !in env.w.partners {
          return Some(Failure("UserError", PartnerMissing));
        }
        var r := PartnerBook.SyncPatient(store, env.cfg, env.w.partners[e.partnerId.value], env.today, outcome, env.now);
        if r.Err? {
          failure := Some(Failure(r.className, r.message));
        } else {
          failure := Some(Failure("UserError", PatientFailure));
        }
      case TestOrder =>
        if e.saleOrderId.None? || e.saleOrderId.value !in env.w.saleOrders {
          return Some(Failure("UserError", SaleOrderMissing));
        }
        var reply := SyncTestOrder(store, env.cfg, e.saleOrderId, env.w, env.w.saleOrders[e.saleOrderId.value], outcome, env.now);
        failure := if reply.status == "success" then None else Some(Failure("UserError", RetryFailedText(reply.message)));
      case LabTest =>
        var pid := PayloadProductId(e.payload);
        if pid == 0 {
          return Some(Failure("UserError", ProductIdMissing));
        }
        if pid as RecordId !in env.w.products {
          return Some(Failure("UserError", ProductMissingText(pid)));
        }
        var reply := SyncLabTest(store, env.cfg, None, env.w, Some(env.w.products[pid as RecordId]), outcome, env.now);
        failure := if reply.status == "success" then None else Some(Failure("UserError", RetryFailedText(reply.message)));
    }
  }

  /** One pass of the drivers' loop: retries `ks[i]`, adds one to `count` when that retry
      succeeds, and moves the fold on by one event. */
  method RetryNext(store: EventStore, ks: seq<EventId>, i: nat, count: nat, env: RetryEnv, deliver: EventId -> Outcome)
    returns (next: nat)
    requires store.Valid() && BatchPending(store.State(), ks, i) && i < |ks|
    modifies store
    ensures store.Valid() && BatchPending(store.State(), ks, i + 1)
    ensures RetryAll(old(store.State()), ks, i, env, deliver).0 == RetryAll(store.State(), ks, i + 1, env, deliver).0
    ensures count + RetryAll(old(store.State()), ks, i, env, deliver).1
         == next + RetryAll(store.State(), ks, i + 1, env, deliver).1
  {
    var ok := RetrySync(store, ks[i], env, deliver(ks[i]));
    next := if ok then count + 1 else count;
  }

  /** Part of the way through the loop over `ks`: the store and count reached so far, with
      the retries of `ks[i..]` still to come, end in the store `goal` and the count `count`. */
  ghost predicate Tracks(goal: Store, total: nat, s: Store, ks: seq<EventId>, i: int, count: nat, env: RetryEnv, deliver: EventId -> Outcome) {
    && QueueInvariant(s) && BatchPending(s, ks, i)
    && goal == RetryAll(s, ks, i, env, deliver).0
    && total == count + RetryAll(s, ks, i, env, deliver).1
  }

  /** Retries the events `ks` in order, counting the retries that succeeded; the loop of
      `cron_retry_failed_events`. */
  method RetryEach(store: EventStore, ks: seq<EventId>, env: RetryEnv, deliver: EventId -> Outcome) returns (successCount: nat)
    requires store.Valid()
    requires forall i :: 0 <= i < |ks| ==> ks[i] in store.events
    requires forall i, j :: 0 <= i < j < |ks| ==> ks[i] != ks[j]
    modifies store
    ensures store.Valid()
    ensures store.State() == RetryAll(old(store.State()), ks, 0, env, deliver).0
    ensures successCount == RetryAll(old(store.State()), ks, 0, env, deliver).1
  {
    ghost var goal := RetryAll(store.State(), ks, 0, env, deliver);
    successCount := 0;
    var i := 0;
    while i < |ks|
      invariant store.Valid() && Tracks(goal.0, goal.1, store.State(), ks, i, successCount, env, deliver)
    {
      successCount := RetryNext(store, ks, i, successCount, env, deliver);
      i := i + 1;
    }
  }

  /** `action_retry` on the events `ids`, in the recordset's order. */
  method ActionRetry(store: EventStore, ids: seq<EventId>, env: RetryEnv, deliver: EventId -> Outcome)
    requires store.Valid()
    requires forall i :: 0 <= i < |ids| ==> ids[i] in store.events
    requires forall i, j :: 0 <= i < j < |ids| ==> ids[i] != ids[j]
    modifies store
    ensures store.Valid()
    ensures store.State() == RetryAll(old(store.State()), ids, 0, env, deliver).0
  {
    ghost var goal := RetryAll(store.State(), ids, 0, env, deliver).0;
    var i := 0;
    while i < |ids|
      invariant store.Valid() && BatchPending(store.State(), ids, i)
      invariant goal == RetryAll(store.State(), ids, i, env, deliver).0
    {
      // the UserError for an event already in the success state cannot be raised
      NoStoredSuccess(store.State(), ids[i]);
      var _ := RetryNext(store, ids, i, 0, env, deliver);
      i := i + 1;
    }
  }

  /** `cron_retry_failed_events`: the batch it takes and the number of retries that succeeded. */
  method CronRetry(store: EventStore, env: RetryEnv, deliver: EventId -> Outcome) returns (batch: seq<EventId>, successCount: nat)
    requires store.Valid()
    modifies store
    ensures store.Valid()
    ensures batch == CronBatch(old(store.events), env.now)
    ensures store.State() == RetryAll(old(store.State()), batch, 0, env, deliver).0
    ensures successCount == RetryAll(old(store.State()), batch, 0, env, deliver).1
  {
    var due := DueIds(store.events, env.now);
    var ordered := store.OrderedIds(due);
    batch := if |ordered| <= CronBatchSize then ordered else ordered[..CronBatchSize];
    CronBatchIsEarliestDue(store.events, env.now);
    successCount := RetryEach(store, batch, env, deliver);
  }

  /** `action_retry_selected`: the selection in table order, each event retried through
      `action_retry`. */
  method ActionRetrySelected(store: EventStore, ids: set<EventId>, env: RetryEnv, deliver: EventId -> Outcome)
    requires store.Valid() && ids <= store.events.Keys
    modifies store
    ensures store.Valid()
    ensures store.State() == RetrySelectedSpec(old(store.State()), ids, env, deliver)
  {
    var sorted := store.OrderedIds(ids);
    QueueOrderDistinct(store.events, ids);
    ActionRetry(store, sorted, env, deliver);
  }
}
