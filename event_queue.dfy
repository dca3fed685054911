/** The store of failed sync events (`openelis.failed.event`): its records, the
    dedup-then-create admission `create_or_update_failed_event`, sequence allocation,
    the guarded `create`/`write`, and the operator's mark-success and delete. */
module EventQueue {
  import opened Wrappers
  import opened Domain

  type EventId = nat

  datatype EventType = Patient | TestOrder | LabTest

  datatype EventState = Pending | Retrying | Success | Failed

  datatype Event = Event(
    sequenceNumber: nat,
    eventType: EventType,
    partnerId: Option<RecordId>,
    partnerRef: string,
    saleOrderId: Option<RecordId>,
    payload: Payload,
    errorMessage: string,
    errorType: string,
    retryCount: nat,
    lastRetryDate: Option<Time>,
    nextRetryDate: Option<Time>,
    state: EventState,
    createDate: Time)

  /** The arguments of `create_or_update_failed_event`; "" and None stand for omitted ones. */
  datatype Admission = Admission(
    eventType: EventType,
    payload: Payload,
    errorMessage: string,
    errorType: string,
    partnerId: Option<RecordId>,
    partnerRef: string,
    saleOrderId: Option<RecordId>)

  /** The table's rows by record id, and the id the database hands out next. */
  datatype Store = Store(events: map<EventId, Event>, nextId: EventId)

  const CreateRefused := "Failed events can only be created automatically by the system. Manual creation is not allowed."
  const WriteRefused := "Failed events can only be modified by the system. Manual editing is not allowed."

  predicate Unresolved(e: Event) {
    e.state == Pending || e.state == Retrying || e.state == Failed
  }

  /** The dedup search domain: unresolved, same type, and then the partner reference (else the
      partner) for patients, the sale order when one is given for test orders, nothing more for lab tests. */
  predicate Matches(e: Event, a: Admission) {
    && e.eventType == a.eventType
    && Unresolved(e)
    && match a.eventType
       case Patient =>
         if a.partnerRef != "" then e.partnerRef == a.partnerRef
         else a.partnerId.Some? ==> e.partnerId == a.partnerId
       case TestOrder => a.saleOrderId.Some? ==> e.saleOrderId == a.saleOrderId
       case LabTest => true
  }

  /** Two events stand for the same subject: the same non-empty patient reference, the same
      sale order, or both lab-test events (lab tests are deduplicated by type alone). */
  predicate SameSubject(e1: Event, e2: Event) {
    && e1.eventType == e2.eventType
    && match e1.eventType
       case Patient => e1.partnerRef != "" && e1.partnerRef == e2.partnerRef
       case TestOrder => e1.saleOrderId.Some? && e1.saleOrderId == e2.saleOrderId
       case LabTest => true
  }

  /** At most one unresolved event per subject. */
  ghost predicate Deduplicated(m: map<EventId, Event>) {
    forall i, j :: i in m && j in m && i != j && Unresolved(m[i]) && Unresolved(m[j]) ==> !SameSubject(m[i], m[j])
  }

  /** What every operation keeps: fresh ids above the stored ones, no stored `success` row
      (success deletes), positive and pairwise distinct sequence numbers, and deduplication. */
  ghost predicate QueueInvariant(s: Store) {
    && (forall i :: i in s.events ==> i < s.nextId)
    && (forall i :: i in s.events ==> s.events[i].state != Success && s.events[i].sequenceNumber >= 1)
    && (forall i, j :: i in s.events && j in s.events && i != j ==>
          s.events[i].sequenceNumber != s.events[j].sequenceNumber)
    && Deduplicated(s.events)
  }

  /** The table order `sequence_number asc, create_date asc`, ties broken by record id. */
  predicate Earlier(a: Event, i: EventId, b: Event, j: EventId) {
    || a.sequenceNumber < b.sequenceNumber
    || (a.sequenceNumber == b.sequenceNumber &&
        (a.createDate < b.createDate || (a.createDate == b.createDate && i < j)))
  }

  /** `k` comes first in table order among the ids `ids`. */
  ghost predicate IsEarliest(m: map<EventId, Event>, ids: set<EventId>, k: EventId) {
    && ids <= m.Keys
    && k in ids
    && forall j :: j in ids && j != k ==> Earlier(m[k], k, m[j], j)
  }

  lemma {:induction false} EarliestExists(m: map<EventId, Event>, ids: set<EventId>)
    requires ids != {} && ids <= m.Keys
    ensures exists k :: IsEarliest(m, ids, k)
    decreases |ids|
  {
    var x :| x in ids;
    if ids == {x} {
      assert IsEarliest(m, ids, x);
    } else {
      var rest := ids - {x};
      EarliestExists(m, rest);
      var k :| IsEarliest(m, rest, k);
      if Earlier(m[x], x, m[k], k) {
        assert IsEarliest(m, ids, x);
      } else {
        assert IsEarliest(m, ids, k);
      }
    }
  }

  lemma EarliestUnique(m: map<EventId, Event>, ids: set<EventId>, k1: EventId, k2: EventId)
    requires IsEarliest(m, ids, k1) && IsEarliest(m, ids, k2)
    ensures k1 == k2
  {
  }

  ghost function MatchingIds(m: map<EventId, Event>, a: Admission): (ids: set<EventId>)
    ensures ids <= m.Keys
    ensures forall j :: j in ids <==> j in m && Matches(m[j], a)
  {
    set j | j in m && Matches(m[j], a)
  }

  /** `self.search(domain, limit=1)`: the first matching event in table order, if any. */
  ghost function FirstMatch(m: map<EventId, Event>, a: Admission): (r: Option<EventId>)
    ensures r.None? <==> forall j :: j in m ==> !Matches(m[j], a)
    ensures r.Some? ==> IsEarliest(m, MatchingIds(m, a), r.value)
  {
    var ids := MatchingIds(m, a);
    if ids == {} then None
    else
      EarliestExists(m, ids);
      var k :| IsEarliest(m, ids, k);
      Some(k)
  }

  /** `v` is the largest sequence number among the events `ids` (0 for none). */
  ghost predicate IsTopOf(m: map<EventId, Event>, ids: set<EventId>, v: nat) {
    && ids <= m.Keys
    && (forall i :: i in ids ==> m[i].sequenceNumber <= v)
    && (ids == {} ==> v == 0)
    && (ids != {} ==> exists i :: i in ids && m[i].sequenceNumber == v)
  }

  lemma {:induction false} TopExists(m: map<EventId, Event>, ids: set<EventId>)
    requires ids <= m.Keys
    ensures exists v :: IsTopOf(m, ids, v)
    decreases |ids|
  {
    if ids == {} {
      assert IsTopOf(m, ids, 0);
    } else {
      var x :| x in ids;
      TopExists(m, ids - {x});
      var v :| IsTopOf(m, ids - {x}, v);
      var w: nat := if m[x].sequenceNumber > v then m[x].sequenceNumber else v;
      if ids - {x} == {} {
        assert m[x].sequenceNumber == w;
      }
      assert IsTopOf(m, ids, w);
    }
  }

  lemma TopUnique(m: map<EventId, Event>, ids: set<EventId>, v1: nat, v2: nat)
    requires IsTopOf(m, ids, v1) && IsTopOf(m, ids, v2)
    ensures v1 == v2
  {
  }

  /** The largest stored sequence number (0 for an empty table). */
  ghost function TopSequence(m: map<EventId, Event>): (v: nat)
    ensures IsTopOf(m, m.Keys, v)
  {
    TopExists(m, m.Keys);
    var v :| IsTopOf(m, m.Keys, v);
    v
  }

  /** `_get_next_sequence_number`: one more than the largest stored sequence number, or 1 when
      there is no event or the largest is 0; so it exceeds every stored sequence number. */
  ghost function NextSequence(m: map<EventId, Event>): (r: nat)
    ensures r >= 1
    ensures forall i :: i in m ==> m[i].sequenceNumber < r
    ensures r == 1 || exists i :: i in m && m[i].sequenceNumber == r - 1
  {
    var top := TopSequence(m);
    if top != 0 then top + 1 else 1
  }

  /** Sequence numbers are not reserved: once the event holding the top number is deleted, the
      next number is at most that one, and exactly that one when the number below it is still
      held (or it was 1), so the next new event takes the deleted event's number again. */
  lemma DeletedTopNumberReturns(m: map<EventId, Event>, k: EventId)
    requires k in m && m[k].sequenceNumber >= 1
    requires forall i :: i in m && i != k ==> m[i].sequenceNumber < m[k].sequenceNumber
    ensures NextSequence(Unlinked(m, {k})) <= m[k].sequenceNumber
    ensures m[k].sequenceNumber == 1 || (exists i :: i in m && i != k && m[i].sequenceNumber == m[k].sequenceNumber - 1) ==>
      NextSequence(Unlinked(m, {k})) == m[k].sequenceNumber
  {
    var r := Unlinked(m, {k});
    var t := TopSequence(r);
    assert t < m[k].sequenceNumber by {
      if r.Keys != {} {
        var i :| i in r && r[i].sequenceNumber == t;
      }
    }
    if exists i :: i in m && i != k && m[i].sequenceNumber == m[k].sequenceNumber - 1 {
      var i :| i in m && i != k && m[i].sequenceNumber == m[k].sequenceNumber - 1;
      assert i in r;
    }
  }

  /** The fields written onto an existing event (`update_vals`): the new payload and error,
      retry state reset, dates cleared; the given partner and sale order replace the old ones;
      the sequence number, type and creation time stay. */
  function Refresh(e: Event, a: Admission): Event {
    e.(payload := a.payload,
       errorMessage := a.errorMessage,
       errorType := a.errorType,
       retryCount := 0,
       state := Pending,
       nextRetryDate := None,
       lastRetryDate := None,
       partnerId := if a.partnerId.Some? then a.partnerId else e.partnerId,
       partnerRef := if a.partnerRef != "" then a.partnerRef else e.partnerRef,
       saleOrderId := if a.saleOrderId.Some? then a.saleOrderId else e.saleOrderId)
  }

  /** The values of a newly created event. */
  function Fresh(a: Admission, sequenceNumber: nat, now: Time): Event {
    Event(sequenceNumber, a.eventType, a.partnerId, a.partnerRef, a.saleOrderId, a.payload,
          a.errorMessage, a.errorType, 0, None, None, Pending, now)
  }

  /** `create_or_update_failed_event` on a store value. */
  ghost function Admit(s: Store, a: Admission, now: Time): Store {
    match FirstMatch(s.events, a)
    case Some(k) => Store(s.events[k := Refresh(s.events[k], a)], s.nextId)
    case None => Store(s.events[s.nextId := Fresh(a, NextSequence(s.events), now)], s.nextId + 1)
  }

  /** The store after an optional admission. */
  ghost function AdmitIf(s: Store, a: Option<Admission>, now: Time): Store {
    match a
    case Some(x) => Admit(s, x, now)
    case None => s
  }

  /** Admission never removes an event and changes at most one, the one it finds or creates. */
  lemma AdmitFrame(s: Store, a: Admission, now: Time)
    requires QueueInvariant(s)
    ensures s.events.Keys <= Admit(s, a, now).events.Keys
    ensures Admit(s, a, now).nextId >= s.nextId
    ensures forall i :: i in s.events && Some(i) != FirstMatch(s.events, a) ==> Admit(s, a, now).events[i] == s.events[i]
  {
  }

  /** Refreshing a matching event leaves what `SameSubject` reads of it as it was. */
  lemma RefreshKeepsSubject(e: Event, a: Admission, x: Event)
    requires Matches(e, a)
    ensures SameSubject(Refresh(e, a), x) == SameSubject(e, x)
    ensures SameSubject(x, Refresh(e, a)) == SameSubject(x, e)
  {
    var r := Refresh(e, a);
    assert r.eventType == e.eventType;
    assert e.eventType == Patient ==> r.partnerRef == e.partnerRef;
    assert e.eventType == TestOrder ==> r.saleOrderId == e.saleOrderId;
  }

  /** Refreshing the found event keeps the invariant. */
  lemma RefreshPreservesInvariant(s: Store, a: Admission, k: EventId)
    requires QueueInvariant(s) && k in s.events && Matches(s.events[k], a)
    ensures QueueInvariant(Store(s.events[k := Refresh(s.events[k], a)], s.nextId))
  {
    var m := s.events;
    var r := Refresh(m[k], a);
    var m' := m[k := r];
    assert r.sequenceNumber == m[k].sequenceNumber && r.state == Pending;
    assert Deduplicated(m') by {
      forall i, j | i in m' && j in m' && i != j && Unresolved(m'[i]) && Unresolved(m'[j])
        ensures !SameSubject(m'[i], m'[j])
      {
        if i == k {
          RefreshKeepsSubject(m[k], a, m[j]);
        } else if j == k {
          RefreshKeepsSubject(m[k], a, m[i]);
        }
      }
    }
  }

  /** Creating an event when none matches keeps the invariant: it is the only one of its subject. */
  lemma FreshPreservesInvariant(s: Store, a: Admission, now: Time)
    requires QueueInvariant(s) && forall j :: j in s.events ==> !Matches(s.events[j], a)
    ensures QueueInvariant(Store(s.events[s.nextId := Fresh(a, NextSequence(s.events), now)], s.nextId + 1))
  {
    var m := s.events;
    var f := Fresh(a, NextSequence(m), now);
    var m' := m[s.nextId := f];
    assert s.nextId !in m;
    assert forall j :: j in m ==> !SameSubject(f, m[j]) && !SameSubject(m[j], f) by {
      forall j | j in m
        ensures !SameSubject(f, m[j]) && !SameSubject(m[j], f)
      {
        assert !Matches(m[j], a);
      }
    }
    assert Deduplicated(m') by {
      forall i, j | i in m' && j in m' && i != j && Unresolved(m'[i]) && Unresolved(m'[j])
        ensures !SameSubject(m'[i], m'[j])
      {
        if i != s.nextId && j != s.nextId {
          assert m'[i] == m[i] && m'[j] == m[j];
        }
      }
    }
  }

  /** `create_or_update_failed_event` keeps the queue invariant. */
  lemma AdmitPreservesInvariant(s: Store, a: Admission, now: Time)
    requires QueueInvariant(s)
    ensures QueueInvariant(Admit(s, a, now))
  {
    match FirstMatch(s.events, a)
    case Some(k) =>
      RefreshPreservesInvariant(s, a, k);
    case None =>
      FreshPreservesInvariant(s, a, now);
  }

  /** Admitting onto an existing unresolved event keeps its sequence number and creation time
      and resets its retry state, with the new payload and error. */
  lemma AdmitUpdatesExisting(s: Store, a: Admission, now: Time, k: EventId)
    requires FirstMatch(s.events, a) == Some(k)
    ensures var e := Admit(s, a, now).events[k];
      && Admit(s, a, now).events.Keys == s.events.Keys
      && Admit(s, a, now).nextId == s.nextId
      && e.sequenceNumber == s.events[k].sequenceNumber
      && e.createDate == s.events[k].createDate
      && e.eventType == a.eventType
      && e.payload == a.payload && e.errorMessage == a.errorMessage && e.errorType == a.errorType
      && e.retryCount == 0 && e.state == Pending
      && e.lastRetryDate.None? && e.nextRetryDate.None?
  {
    assert Matches(s.events[k], a);
  }

  /** A first failure for a subject creates a pending event under a fresh id whose sequence
      number is above every stored one. */
  lemma AdmitCreatesNew(s: Store, a: Admission, now: Time)
    requires QueueInvariant(s)
    requires forall j :: j in s.events ==> !Matches(s.events[j], a)
    ensures var t := Admit(s, a, now);
      && s.nextId !in s.events
      && t.events.Keys == s.events.Keys + {s.nextId}
      && t.nextId == s.nextId + 1
      && t.events[s.nextId].state == Pending && t.events[s.nextId].retryCount == 0
      && t.events[s.nextId].payload == a.payload
      && (forall i :: i in s.events ==> s.events[i].sequenceNumber < t.events[s.nextId].sequenceNumber)
      && (forall i :: i in s.events ==> t.events[i] == s.events[i])
  {
    assert FirstMatch(s.events, a).None?;
  }

  /** The admission key of an event: what `Matches` reads for its subject. */
  predicate Keyed(a: Admission) {
    match a.eventType
    case Patient => a.partnerRef != ""
    case TestOrder => a.saleOrderId.Some?
    case LabTest => true
  }

  predicate SameKey(a1: Admission, a2: Admission) {
    && a1.eventType == a2.eventType
    && match a1.eventType
       case Patient => a1.partnerRef == a2.partnerRef
       case TestOrder => a1.saleOrderId == a2.saleOrderId
       case LabTest => true
  }

  /** Under the invariant a keyed admission finds at most one event. */
  lemma KeyedMatchIsUnique(s: Store, a: Admission, k: EventId)
    requires QueueInvariant(s) && Keyed(a)
    requires k in s.events && Matches(s.events[k], a)
    ensures FirstMatch(s.events, a) == Some(k)
  {
    var m := s.events;
    forall j | j in m && j != k
      ensures !Matches(m[j], a)
    {
      if Matches(m[j], a) {
        assert SameSubject(m[k], m[j]);
      }
    }
    assert MatchingIds(m, a) == {k};
  }

  /** The id an admission writes to: the event it finds, or the next fresh id. */
  ghost function AdmittedId(s: Store, a: Admission): EventId {
    match FirstMatch(s.events, a)
    case Some(k) => k
    case None => s.nextId
  }

  /** The admitted event is pending, carries the new payload and error with retry count 0, and
      is found again by the same admission. */
  lemma AdmitTarget(s: Store, a: Admission, now: Time)
    requires QueueInvariant(s)
    ensures var k := AdmittedId(s, a);
      var e := Admit(s, a, now).events[k];
      k in Admit(s, a, now).events
      && Matches(e, a) && e.payload == a.payload && e.errorMessage == a.errorMessage
      && e.retryCount == 0 && e.state == Pending
  {
    match FirstMatch(s.events, a)
    case Some(k) =>
      assert Matches(s.events[k], a);
    case None =>
  }

  /** An event matching a keyed admission matches every admission with the same key. */
  lemma SameKeyMatches(a1: Admission, a2: Admission, e: Event)
    requires Keyed(a1) && SameKey(a1, a2) && Matches(e, a1)
    ensures Keyed(a2) && Matches(e, a2)
  {
  }

  /** Two events matching one keyed admission share a subject. */
  lemma KeyedMatchesShareSubject(a: Admission, e1: Event, e2: Event)
    requires Keyed(a) && Matches(e1, a) && Matches(e2, a)
    ensures SameSubject(e1, e2)
  {
  }

  /** Two admissions for the same subject in a row leave one unresolved event for it, carrying
      the second payload and error with retry count 0, under the id and sequence number the first
      admission gave it. */
  lemma RepeatedAdmission(s: Store, a1: Admission, a2: Admission, now1: Time, now2: Time)
    requires QueueInvariant(s) && Keyed(a1) && SameKey(a1, a2)
    ensures var t1 := Admit(s, a1, now1);
      var t2 := Admit(t1, a2, now2);
      exists k :: k in t1.events && k in t2.events && Matches(t1.events[k], a1)
        && t2.events[k].sequenceNumber == t1.events[k].sequenceNumber
        && t2.events[k].payload == a2.payload && t2.events[k].errorMessage == a2.errorMessage
        && t2.events[k].retryCount == 0 && t2.events[k].state == Pending
        && (forall j :: j in t2.events && Matches(t2.events[j], a2) ==> j == k)
  {
    var t1 := Admit(s, a1, now1);
    var k := AdmittedId(s, a1);
    AdmitTarget(s, a1, now1);
    AdmitPreservesInvariant(s, a1, now1);
    SameKeyMatches(a1, a2, t1.events[k]);
    KeyedMatchIsUnique(t1, a2, k);
    AdmitUpdatesExisting(t1, a2, now2, k);
    var t2 := Admit(t1, a2, now2);
    AdmitPreservesInvariant(t1, a2, now2);
    AdmitTarget(t1, a2, now2);
    forall j | j in t2.events && Matches(t2.events[j], a2)
      ensures j == k
    {
      KeyedMatchesShareSubject(a2, t2.events[k], t2.events[j]);
    }
  }

  /** After any admission at most one unresolved lab-test event exists, for all products. */
  lemma SingleLabTestEvent(s: Store, a: Admission, now: Time, i: EventId, j: EventId)
    requires QueueInvariant(s)
    requires var m := Admit(s, a, now).events;
      i in m && j in m && m[i].eventType == LabTest && m[j].eventType == LabTest
    ensures i == j
  {
    AdmitPreservesInvariant(s, a, now);
    var m := Admit(s, a, now).events;
    if i != j {
      assert SameSubject(m[i], m[j]);
    }
  }

  /** The stored events without those in `ids` (`unlink`). */
  function Unlinked(m: map<EventId, Event>, ids: set<EventId>): (r: map<EventId, Event>)
    ensures r.Keys == m.Keys - ids
    ensures forall i :: i in r ==> r[i] == m[i]
  {
    m - ids
  }

  /** The events that do not reference partner `p` (cascade delete of the partner). */
  function WithoutPartner(m: map<EventId, Event>, p: RecordId): (r: map<EventId, Event>)
    ensures forall i :: i in r <==> i in m && m[i].partnerId != Some(p)
    ensures forall i :: i in r ==> r[i] == m[i]
  {
    map i | i in m && m[i].partnerId != Some(p) :: m[i]
  }

  /** The events that do not reference sale order `o` (cascade delete of the sale order). */
  function WithoutSaleOrder(m: map<EventId, Event>, o: RecordId): (r: map<EventId, Event>)
    ensures forall i :: i in r <==> i in m && m[i].saleOrderId != Some(o)
    ensures forall i :: i in r ==> r[i] == m[i]
  {
    map i | i in m && m[i].saleOrderId != Some(o) :: m[i]
  }

  /** Removing events keeps the invariant. */
  lemma RemovalPreservesInvariant(s: Store, m: map<EventId, Event>)
    requires QueueInvariant(s)
    requires m.Keys <= s.events.Keys && forall i :: i in m ==> m[i] == s.events[i]
    ensures QueueInvariant(Store(m, s.nextId))
  {
  }

  /** Writing non-key fields of a stored event, keeping it unresolved, keeps the invariant. */
  lemma UpdatePreservesInvariant(s: Store, k: EventId, e: Event)
    requires QueueInvariant(s) && k in s.events
    requires e.state != Success && e.sequenceNumber == s.events[k].sequenceNumber
    requires e.eventType == s.events[k].eventType && e.partnerRef == s.events[k].partnerRef
    requires e.saleOrderId == s.events[k].saleOrderId
    ensures QueueInvariant(Store(s.events[k := e], s.nextId))
  {
    var m := s.events;
    var m' := m[k := e];
    assert Deduplicated(m') by {
      forall i, j | i in m' && j in m' && i != j && Unresolved(m'[i]) && Unresolved(m'[j])
        ensures !SameSubject(m'[i], m'[j])
      {
        assert SameSubject(m'[i], m'[j]) == SameSubject(m[i], m[j]);
      }
    }
  }

  /** The first of the events `ids` in table order. */
  ghost function EarliestOf(m: map<EventId, Event>, ids: set<EventId>): (k: EventId)
    requires ids != {} && ids <= m.Keys
    ensures IsEarliest(m, ids, k)
  {
    EarliestExists(m, ids);
    var k :| IsEarliest(m, ids, k);
    k
  }

  /** `r` lists stored events strictly in table order. */
  ghost predicate InTableOrder(m: map<EventId, Event>, r: seq<EventId>)
  {
    (forall i :: 0 <= i < |r| ==> r[i] in m) &&
    forall i, j :: 0 <= i < j < |r| ==> Earlier(m[r[i]], r[i], m[r[j]], r[j])
  }

  /** The events `ids` listed in table order (`sequence_number`, `create_date`, id ascending). */
  ghost function QueueOrder(m: map<EventId, Event>, ids: set<EventId>): (r: seq<EventId>)
    requires ids <= m.Keys
    ensures |r| == |ids|
    ensures forall k :: k in r <==> k in ids
    ensures InTableOrder(m, r)
    decreases |ids|
  {
    if ids == {} then []
    else
      var k := EarliestOf(m, ids);
      var rest := QueueOrder(m, ids - {k});
      EarliestHeadsOrder(m, ids, k, rest);
      [k] + rest
  }

  /** The earliest of `ids` put in front of the others listed in table order keeps the list in
      table order. */
  lemma EarliestHeadsOrder(m: map<EventId, Event>, ids: set<EventId>, k: EventId, rest: seq<EventId>)
    requires IsEarliest(m, ids, k) && InTableOrder(m, rest)
    requires forall j :: j in rest ==> j in ids && j != k
    ensures InTableOrder(m, [k] + rest)
  {
    var r := [k] + rest;
    forall i, j | 0 <= i < j < |r|
      ensures Earlier(m[r[i]], r[i], m[r[j]], r[j])
    {
      assert r[j] == rest[j - 1];
      if i > 0 {
        assert r[i] == rest[i - 1];
      }
    }
  }

  lemma QueueOrderUnfold(m: map<EventId, Event>, ids: set<EventId>, k: EventId)
    requires ids != {} && ids <= m.Keys && k == EarliestOf(m, ids)
    ensures QueueOrder(m, ids) == [k] + QueueOrder(m, ids - {k})
  {
  }

  /** Table order is strict, so a list in table order has no repetition. */
  lemma QueueOrderDistinct(m: map<EventId, Event>, ids: set<EventId>)
    requires ids <= m.Keys
    ensures var r := QueueOrder(m, ids); forall i, j :: 0 <= i < j < |r| ==> r[i] != r[j]
  {
    var r := QueueOrder(m, ids);
    assert InTableOrder(m, r);
  }

  class EventStore {
    var events: map<EventId, Event>
    var nextId: EventId

    function State(): Store
      reads this
    {
      Store(events, nextId)
    }

    ghost predicate Valid()
      reads this
    {
      QueueInvariant(State())
    }

    constructor ()
      ensures Valid() && events == map[] && nextId == 0
    {
      events := map[];
      nextId := 0;
    }

    /** `create`: refused unless the system flag is set; the database gives the next id. */
    method Create(vals: Event, allowSystemCreate: bool) returns (r: Result<EventId>)
      modifies this
      ensures !allowSystemCreate ==> r == Err("UserError", CreateRefused) && events == old(events) && nextId == old(nextId)
      ensures allowSystemCreate ==> r == Ok(old(nextId)) && events == old(events)[old(nextId) := vals] && nextId == old(nextId) + 1
    {
      if !allowSystemCreate {
        return Err("UserError", CreateRefused);
      }
      r := Ok(nextId);
      events := events[nextId := vals];
      nextId := nextId + 1;
    }

    /** `write`: refused unless the system flag is set; `vals` is the record as it reads after the write. */
    method Write(id: EventId, vals: Event, allowSystemWrite: bool) returns (r: Result<()>)
      requires id in events
      modifies this
      ensures nextId == old(nextId)
      ensures !allowSystemWrite ==> r == Err("UserError", WriteRefused) && events == old(events)
      ensures allowSystemWrite ==> r == Ok(()) && events == old(events)[id := vals]
    {
      if !allowSystemWrite {
        return Err("UserError", WriteRefused);
      }
      events := events[id := vals];
      r := Ok(());
    }

    /** The dedup lookup `self.search(domain, limit=1)`. */
    method FindExisting(a: Admission) returns (found: Option<EventId>)
      ensures found == FirstMatch(events, a)
    {
      found := None;
      var rest := events.Keys;
      while rest != {}
        invariant rest <= events.Keys
        invariant found.None? ==> forall j :: j in events && j !in rest ==> !Matches(events[j], a)
        invariant found.Some? ==> IsEarliest(events, MatchingIds(events, a) - rest, found.value)
        decreases rest
      {
        var k :| k in rest;
        rest := rest - {k};
        if Matches(events[k], a) {
          if found.None? || Earlier(events[k], k, events[found.value], found.value) {
            found := Some(k);
          }
        }
      }
      assert MatchingIds(events, a) - rest == MatchingIds(events, a);
      if found.Some? {
        EarliestUnique(events, MatchingIds(events, a), found.value, FirstMatch(events, a).value);
      }
    }

    /** `_get_next_sequence_number`: reads the top sequence number (`order='sequence_number desc', limit=1`). */
    method NextSequenceNumber() returns (r: nat)
      ensures r == NextSequence(events)
    {
      var top: nat := 0;
      var rest := events.Keys;
      while rest != {}
        invariant rest <= events.Keys
        invariant IsTopOf(events, events.Keys - rest, top)
        decreases rest
      {
        var k :| k in rest;
        var done := events.Keys - rest;
        rest := rest - {k};
        assert events.Keys - rest == done + {k};
        if events[k].sequenceNumber > top {
          top := events[k].sequenceNumber;
        }
      }
      assert events.Keys - rest == events.Keys;
      TopUnique(events, events.Keys, top, TopSequence(events));
      r := if top != 0 then top + 1 else 1;
    }

    /** `create_or_update_failed_event`. */
    method CreateOrUpdate(a: Admission, now: Time) returns (id: EventId)
      requires Valid()
      modifies this
      ensures Valid()
      ensures State() == Admit(old(State()), a, now)
      ensures id in events && Matches(events[id], a)
    {
      AdmitPreservesInvariant(State(), a, now);
      ghost var expected := Admit(State(), a, now);
      var existing := FindExisting(a);
      if existing.Some? {
        id := existing.value;
        var _ := Write(id, Refresh(events[id], a), true);
      } else {
        var sequenceNumber := NextSequenceNumber();
        var created := Create(Fresh(a, sequenceNumber, now), true);
        id := created.value;
      }
      assert State() == expected;
    }

    /** `unlink`: removes the events `ids`. */
    method Unlink(ids: set<EventId>)
      modifies this
      ensures nextId == old(nextId)
      ensures events == Unlinked(old(events), ids)
    {
      events := events - ids;
    }

    /** `action_delete`. */
    method Delete(ids: set<EventId>)
      requires Valid()
      modifies this
      ensures Valid() && nextId == old(nextId)
      ensures events == Unlinked(old(events), ids)
    {
      RemovalPreservesInvariant(State(), Unlinked(events, ids));
      Unlink(ids);
    }

    /** `action_mark_success`: write state success on the selected events, then unlink them. */
    method MarkSuccess(ids: set<EventId>)
      requires Valid()
      modifies this
      ensures Valid() && nextId == old(nextId)
      ensures events == Unlinked(old(events), ids)
    {
      RemovalPreservesInvariant(State(), Unlinked(events, ids));
      ghost var before := events;
      events := map i | i in events :: if i in ids then events[i].(state := Success) else events[i];
      Unlink(ids);
      assert events == Unlinked(before, ids);
    }

    /** The first of the events `ids` in table order. */
    method EarliestAmong(ids: set<EventId>) returns (k: EventId)
      requires ids != {} && ids <= events.Keys
      ensures k == EarliestOf(events, ids)
    {
      k :| k in ids;
      var rest := ids - {k};
      while rest != {}
        invariant rest <= ids && k in ids && k !in rest
        invariant forall j :: j in ids && j !in rest && j != k ==> Earlier(events[k], k, events[j], j)
        decreases rest
      {
        var j :| j in rest;
        rest := rest - {j};
        if Earlier(events[j], j, events[k], k) {
          k := j;
        }
      }
      EarliestUnique(events, ids, k, EarliestOf(events, ids));
    }

    /** The events `ids` in table order, as `search(..., order='sequence_number asc, create_date asc')` lists them. */
    method OrderedIds(ids: set<EventId>) returns (r: seq<EventId>)
      requires ids <= events.Keys
      ensures r == QueueOrder(events, ids)
    {
      r := [];
      var rest := ids;
      while rest != {}
        invariant rest <= ids
        invariant r + QueueOrder(events, rest) == QueueOrder(events, ids)
        decreases rest
      {
        var k := EarliestAmong(rest);
        QueueOrderUnfold(events, rest, k);
        assert (r + [k]) + QueueOrder(events, rest - {k}) == r + ([k] + QueueOrder(events, rest - {k}));
        r := r + [k];
        rest := rest - {k};
      }
    }

    /** Deleting a partner deletes its events (`ondelete='cascade'` on `partner_id`). */
    method DeletePartner(p: RecordId)
      requires Valid()
      modifies this
      ensures Valid() && nextId == old(nextId)
      ensures events == WithoutPartner(old(events), p)
    {
      RemovalPreservesInvariant(State(), WithoutPartner(events, p));
      events := WithoutPartner(events, p);
    }

    /** Deleting a sale order deletes its events (`ondelete='cascade'` on `sale_order_id`). */
    method DeleteSaleOrder(o: RecordId)
      requires Valid()
      modifies this
      ensures Valid() && nextId == old(nextId)
      ensures events == WithoutSaleOrder(old(events), o)
    {
      RemovalPreservesInvariant(State(), WithoutSaleOrder(events, o));
      events := WithoutSaleOrder(events, o);
    }
  }
}
