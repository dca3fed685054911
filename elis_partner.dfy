/** The laboratory extension of `res.partner`: age and birthdate kept in step, the rule that
    customers carry one of them, patient-id assignment on create, the sync triggers of create
    and write, and `_sync_patient_to_openelis`, which files every failed delivery as a
    'patient' event keyed by the partner's reference. */
module ElisPartner {
  import opened Wrappers
  import opened Text
  import opened Seqs
  import opened Dates
  import opened Domain
  import opened EventQueue
  import opened SyncService

  const PatientEndpoint := "/rest/odoo/patient"
  const MissingBirthInfo := "For customers/patients, either Date of Birth or Age must be provided. OpenELIS requires this information."

  /** The payload birthdate: the ISO birthdate, else 1 January `age` years ago for a positive
      age, else ""; `Err` where that 1 January is not a date and `date()` raises ValueError,
      which the code does outside its try block. */
  function BirthText(p: Partner, today: CalendarDate): (r: Result<string>)
    ensures p.birthdate.Some? ==> r == Ok(IsoFormat(p.birthdate.value))
    ensures p.birthdate.None? && p.age <= 0 ==> r == Ok("")
    ensures p.birthdate.None? && p.age > 0 ==> (r.Ok? <==> today.year - p.age >= 1)
    ensures p.birthdate.None? && p.age > 0 && r.Ok? ==>
      exists d: CalendarDate :: r.value == IsoFormat(d) && d.month == 1 && d.day == 1 && AgeOn(today, Some(d)) == p.age
    ensures r.Err? ==> r.className == "ValueError"
  {
    match p.birthdate
    case Some(b) => Ok(IsoFormat(b))
    case None =>
      if p.age > 0 then
        match JanFirstYearsAgo(today, p.age)
        case Some(d) =>
          AgeOfJanFirstYearsAgo(today, p.age);
          Ok(IsoFormat(d))
        case None => Err("ValueError", YearOutOfRange(today.year - p.age))
      else Ok("")
  }

  /** How `_sync_patient_to_openelis` ends for one partner and one delivery outcome: nothing
      sent, delivered, a failure filed, or ValueError from the birthdate; it returns None on
      every path that does not raise. */
  datatype PatientStep = NotSent | Delivered | Filed(admission: Admission) | BirthdateRaises(message: string)

  function PatientSyncStep(cfg: Config, p: Partner, today: CalendarDate, outcome: Outcome): (step: PatientStep)
    ensures !cfg.patientSyncEnabled || cfg.apiUrl == "" ==> step == NotSent
    ensures step.BirthdateRaises? <==> cfg.patientSyncEnabled && cfg.apiUrl != "" && BirthText(p, today).Err?
    ensures step.Filed? <==>
      cfg.patientSyncEnabled && cfg.apiUrl != "" && BirthText(p, today).Ok?
      && !(outcome.Response? && outcome.code == 200 && !outcome.body.JsonValue?)
    ensures step.Filed? ==>
      var a := step.admission;
      && a.eventType == Patient && a.partnerId == Some(p.id) && a.partnerRef == p.ref && a.saleOrderId.None?
      && a.payload == PatientPayload(p.ref, BirthText(p, today).value)
      && (outcome.Response? && !outcome.body.JsonValue? ==>
            a.errorType == HttpErrorType(outcome.code) && a.errorMessage == FailureText(outcome.code, outcome.body))
      && (outcome.Response? && outcome.body.JsonValue? ==>
            a.errorType == "AttributeError" && a.errorMessage == NoGetError(outcome.body.typeName).message)
      && (outcome.Raised? ==> a.errorType == ErrorTypeOf(outcome.error) && a.errorMessage == outcome.error.message)
  {
    if !cfg.patientSyncEnabled || cfg.apiUrl == "" then NotSent
    else
      match BirthText(p, today)
      case Err(_, message) => BirthdateRaises(message)
      case Ok(birth) =>
        var payload := PatientPayload(p.ref, birth);
        match outcome
        case Response(code, body) =>
          if body.JsonValue? then
            var e := NoGetError(body.typeName);
            Filed(Admission(Patient, payload, e.message, ErrorTypeOf(e), Some(p.id), p.ref, None))
          else if code == 200 then Delivered
          else Filed(Admission(Patient, payload, FailureText(code, body), HttpErrorType(code), Some(p.id), p.ref, None))
        case Raised(e) =>
          Filed(Admission(Patient, payload, e.message, ErrorTypeOf(e), Some(p.id), p.ref, None))
  }

  /** `_sync_patient_to_openelis` on a store value: the store after it, and `Ok(())` for its
      `None` or the ValueError it raises. */
  ghost function SyncPatientSpec(s: Store, cfg: Config, p: Partner, today: CalendarDate, outcome: Outcome, now: Time): (Store, Result<()>)
  {
    match PatientSyncStep(cfg, p, today, outcome)
    case Filed(a) => (Admit(s, a, now), Ok(()))
    case BirthdateRaises(m) => (s, Err("ValueError", m))
    case _ => (s, Ok(()))
  }

  /** A reply of 200 whose JSON is not an object (say a list) is not a delivery: `result.get`
      raises AttributeError, which the outer handler files as a patient event. */
  lemma NonObjectReplyFiles(cfg: Config, p: Partner, today: CalendarDate, code: int, typeName: string)
    requires cfg.patientSyncEnabled && cfg.apiUrl != "" && BirthText(p, today).Ok?
    ensures var step := PatientSyncStep(cfg, p, today, Response(code, JsonValue(typeName)));
      step.Filed? && step.admission.errorType == "AttributeError"
      && step.admission.errorMessage == "'" + typeName + "' object has no attribute 'get'"
  {
  }

  /** A patient sync keeps the queue invariant and deletes no event. */
  lemma SyncPatientFrame(s: Store, cfg: Config, p: Partner, today: CalendarDate, outcome: Outcome, now: Time)
    requires QueueInvariant(s)
    ensures QueueInvariant(SyncPatientSpec(s, cfg, p, today, outcome, now).0)
    ensures s.events.Keys <= SyncPatientSpec(s, cfg, p, today, outcome, now).0.events.Keys
  {
    var step := PatientSyncStep(cfg, p, today, outcome);
    if step.Filed? {
      AdmitPreservesInvariant(s, step.admission, now);
      AdmitFrame(s, step.admission, now);
    }
  }

  /** A failed delivery for a partner with a reference leaves exactly one unresolved patient
      event under that reference, carrying this attempt's payload and error. */
  lemma FailedPatientSyncKeyedByRef(s: Store, cfg: Config, p: Partner, today: CalendarDate, outcome: Outcome, now: Time)
    requires QueueInvariant(s) && p.ref != ""
    requires PatientSyncStep(cfg, p, today, outcome).Filed?
    ensures var t := SyncPatientSpec(s, cfg, p, today, outcome, now).0;
      var a := PatientSyncStep(cfg, p, today, outcome).admission;
      && QueueInvariant(t)
      && exists k :: k in t.events && t.events[k].eventType == Patient && t.events[k].partnerRef == p.ref
           && t.events[k].payload == a.payload && t.events[k].errorMessage == a.errorMessage
           && t.events[k].state == Pending && t.events[k].retryCount == 0
           && forall j :: j in t.events && t.events[j].eventType == Patient && t.events[j].partnerRef == p.ref ==> j == k
  {
    var a := PatientSyncStep(cfg, p, today, outcome).admission;
    var k := AdmittedId(s, a);
    AdmitTarget(s, a, now);
    AdmitPreservesInvariant(s, a, now);
    var t := Admit(s, a, now);
    forall j | j in t.events && t.events[j].eventType == Patient && t.events[j].partnerRef == p.ref
      ensures j == k
    {
      if j != k {
        assert Matches(t.events[j], a);
        KeyedMatchesShareSubject(a, t.events[k], t.events[j]);
      }
    }
  }

  /** `_compute_age` for one partner. */
  function WithComputedAge(p: Partner, today: CalendarDate): (q: Partner)
    ensures q == p.(age := q.age)
    ensures q.age == AgeOn(today, p.birthdate)
  {
    p.(age := AgeOn(today, p.birthdate))
  }

  /** `_inverse_age` for one partner: a positive age sets the birthdate to 1 January that many
      years ago, unless that is not a date (the ValueError is swallowed); the age stays as set. */
  function WithInvertedAge(p: Partner, today: CalendarDate): (q: Partner)
    ensures q == p.(birthdate := q.birthdate)
    ensures p.age > 0 && today.year - p.age >= 1 ==> q.birthdate == JanFirstYearsAgo(today, p.age)
    ensures !(p.age > 0 && today.year - p.age >= 1) ==> q.birthdate == p.birthdate
  {
    if p.age > 0 then
      var birthYear := today.year - p.age;
      var year := if birthYear > today.year then today.year else birthYear;
      if year < 1 then p
      else
        var born: CalendarDate := Date(year, 1, 1);
        if p.birthdate != Some(born) then p.(birthdate := Some(born)) else p
    else p
  }

  /** Setting an age and reading it back gives that age whenever the inverse could set a birthdate. */
  lemma InverseThenComputeAge(p: Partner, today: CalendarDate)
    requires p.age > 0 && today.year - p.age >= 1
    ensures WithComputedAge(WithInvertedAge(p, today), today).age == p.age
  {
    AgeOfJanFirstYearsAgo(today, p.age);
  }

  /** Running the inverse on its own result changes nothing more. */
  lemma InvertedAgeTwice(p: Partner, today: CalendarDate)
    ensures WithInvertedAge(WithInvertedAge(p, today), today) == WithInvertedAge(p, today)
  {
  }

  /** The store after `_inverse_age` for one partner `p`, as the inverse reads it: when the
      inverse changes the birthdate, the assignment runs the overridden `write` with
      'birthdate' (unless the birthdate is itself being written, when Odoo only stores it), and
      that nested `write` syncs a customer with a reference, whose delivery ends in `outcome`. */
  ghost function InverseSyncStore(s: Store, cfg: Config, p: Partner, outcome: Outcome, today: CalendarDate, now: Time,
                                  birthdateWritten: bool): Store
  {
    var q := WithInvertedAge(p, today);
    if !birthdateWritten && q.birthdate != p.birthdate && IsRefCustomer(q) then SyncPatientSpec(s, cfg, q, today, outcome, now).0
    else s
  }

  /** `_inverse_age` over the partners `ids` in turn: the partners and the store after it, the
      nested sync of `ids[i]` ending in `outcomes[i]`. */
  ghost function InversePass(m: map<RecordId, Partner>, s: Store, cfg: Config, ids: seq<RecordId>, outcomes: seq<Outcome>,
                             today: CalendarDate, now: Time, birthdateWritten: bool): (r: (map<RecordId, Partner>, Store))
    requires |ids| == |outcomes| && forall t :: 0 <= t < |ids| ==> ids[t] in m
    ensures r.0.Keys == m.Keys
    decreases |ids|
  {
    if ids == [] then (m, s)
    else
      var n := |ids| - 1;
      var t := InversePass(m, s, cfg, ids[..n], outcomes[..n], today, now, birthdateWritten);
      var k := ids[n];
      (t.0[k := WithInvertedAge(t.0[k], today)], InverseSyncStore(t.1, cfg, t.0[k], outcomes[n], today, now, birthdateWritten))
  }

  /** The pass over one partner is one step. */
  lemma InversePassOne(m: map<RecordId, Partner>, s: Store, cfg: Config, k: RecordId, o: Outcome,
                       today: CalendarDate, now: Time, birthdateWritten: bool)
    requires k in m
    ensures InversePass(m, s, cfg, [k], [o], today, now, birthdateWritten)
      == (m[k := WithInvertedAge(m[k], today)], InverseSyncStore(s, cfg, m[k], o, today, now, birthdateWritten))
  {
    assert [k][..0] == [] && [o][..0] == [];
  }

  /** The partners after the pass: exactly those of `ids` inverted, each once. */
  lemma {:induction false} InversePassRecords(m: map<RecordId, Partner>, s: Store, cfg: Config, ids: seq<RecordId>,
                                              outcomes: seq<Outcome>, today: CalendarDate, now: Time, birthdateWritten: bool)
    requires |ids| == |outcomes| && forall t :: 0 <= t < |ids| ==> ids[t] in m
    ensures var r := InversePass(m, s, cfg, ids, outcomes, today, now, birthdateWritten).0;
      forall k :: k in m ==> r[k] == if k in ids then WithInvertedAge(m[k], today) else m[k]
    decreases |ids|
  {
    if ids != [] {
      var n := |ids| - 1;
      InversePassRecords(m, s, cfg, ids[..n], outcomes[..n], today, now, birthdateWritten);
      assert ids == ids[..n] + [ids[n]];
      InvertedAgeTwice(m[ids[n]], today);
    }
  }

  /** The pass keeps the queue invariant and deletes no event. */
  lemma {:induction false} InversePassFrame(m: map<RecordId, Partner>, s: Store, cfg: Config, ids: seq<RecordId>,
                                            outcomes: seq<Outcome>, today: CalendarDate, now: Time, birthdateWritten: bool)
    requires |ids| == |outcomes| && (forall t :: 0 <= t < |ids| ==> ids[t] in m) && QueueInvariant(s)
    ensures var t := InversePass(m, s, cfg, ids, outcomes, today, now, birthdateWritten).1;
      QueueInvariant(t) && s.events.Keys <= t.events.Keys
    decreases |ids|
  {
    if ids != [] {
      var n := |ids| - 1;
      InversePassFrame(m, s, cfg, ids[..n], outcomes[..n], today, now, birthdateWritten);
      var t := InversePass(m, s, cfg, ids[..n], outcomes[..n], today, now, birthdateWritten);
      SyncPatientFrame(t.1, cfg, WithInvertedAge(t.0[ids[n]], today), today, outcomes[n], now);
    }
  }

  /** Without a positive age among the partners the pass changes nothing and sends nothing. */
  lemma {:induction false} InversePassQuiet(m: map<RecordId, Partner>, s: Store, cfg: Config, ids: seq<RecordId>,
                                            outcomes: seq<Outcome>, today: CalendarDate, now: Time, birthdateWritten: bool)
    requires |ids| == |outcomes| && forall t :: 0 <= t < |ids| ==> ids[t] in m && m[ids[t]].age <= 0
    ensures InversePass(m, s, cfg, ids, outcomes, today, now, birthdateWritten) == (m, s)
    decreases |ids|
  {
    if ids != [] {
      var n := |ids| - 1;
      InversePassQuiet(m, s, cfg, ids[..n], outcomes[..n], today, now, birthdateWritten);
      assert m[ids[n] := WithInvertedAge(m[ids[n]], today)] == m;
    }
  }

  /** The constraint `_check_birthdate_or_age` refuses: a non-company customer without birthdate and without a positive age. */
  predicate LacksBirthInfo(p: Partner) {
    p.customerRank > 0 && !p.isCompany && p.birthdate.None? && !(p.age > 0)
  }

  /** `create`'s patient id: a customer created without a reference takes one non-empty
      value from the patient sequence; no value or a failing sequence leaves it without one. */
  function WithPatientId(vals: Partner, draw: SequenceDraw): (r: Partner)
    ensures r == vals.(ref := r.ref)
    ensures r.ref != vals.ref <==> vals.customerRank > 0 && vals.ref == "" && draw.Next? && draw.value != ""
    ensures r.ref != vals.ref ==> r.ref == draw.value
  {
    if vals.customerRank > 0 && vals.ref == "" then
      match draw
      case Next(value) => if value != "" then vals.(ref := value) else vals
      case _ => vals
    else vals
  }

  /** The row `create(vals)` stores: the patient id, then the age inverse when a positive
      age is given (the given age stays as read), else the age computed from the birthdate. */
  function CreatedRow(vals: Partner, draw: SequenceDraw, today: CalendarDate): (r: Partner)
    ensures r == WithPatientId(vals, draw).(birthdate := r.birthdate, age := r.age)
    ensures vals.age > 0 ==> r.age == vals.age
    ensures vals.age > 0 && today.year - vals.age >= 1 ==> r.birthdate == JanFirstYearsAgo(today, vals.age)
    ensures !(vals.age > 0 && today.year - vals.age >= 1) ==> r.birthdate == vals.birthdate
    ensures vals.age <= 0 ==> r.age == AgeOn(today, vals.birthdate)
  {
    var v := WithPatientId(vals, draw);
    if v.age > 0 then WithInvertedAge(v, today) else WithComputedAge(v, today)
  }

  /** The row `create` stores is the inverse applied to the row with its patient id where the
      age is positive, and the computed age otherwise; in the latter case the inverse syncs
      nothing. */
  lemma CreatedRowSteps(vals: Partner, draw: SequenceDraw, today: CalendarDate, id: RecordId, s: Store, cfg: Config,
                        inner: Outcome, now: Time)
    ensures vals.age > 0 ==>
      WithInvertedAge(WithPatientId(vals, draw).(id := id), today) == CreatedRow(vals, draw, today).(id := id)
    ensures vals.age <= 0 ==>
      WithComputedAge(WithPatientId(vals, draw), today).(id := id) == CreatedRow(vals, draw, today).(id := id)
    ensures vals.age <= 0 ==> InverseSyncStore(s, cfg, WithPatientId(vals, draw).(id := id), inner, today, now, false) == s
  {
  }

  /** The row `_check_birthdate_or_age` reads inside the inherited `create`: the stored fields
      with the patient id, and the non-stored age computed from the given birthdate, since the
      given age reaches the cache only just before `_inverse_age` runs. */
  function CheckedOnCreate(vals: Partner, draw: SequenceDraw, today: CalendarDate): (r: Partner)
    ensures r == WithPatientId(vals, draw).(age := r.age)
    ensures r.age == AgeOn(today, vals.birthdate)
  {
    WithComputedAge(WithPatientId(vals, draw), today)
  }

  /** As written, `create` refuses every non-company customer created without a birthdate,
      whatever age it is given. */
  lemma CreateRefusesAsWritten(vals: Partner, draw: SequenceDraw, today: CalendarDate)
    ensures LacksBirthInfo(CheckedOnCreate(vals, draw, today))
      <==> vals.customerRank > 0 && !vals.isCompany && vals.birthdate.None?
  {
  }

  /** A customer created with an age and no birthdate is refused as written, while the
      intended rule, which reads the given age, accepts it. */
  lemma AgeOnlyCustomerRefused(vals: Partner, draw: SequenceDraw, today: CalendarDate)
    requires vals.customerRank > 0 && !vals.isCompany && vals.birthdate.None? && vals.age > 0
    ensures LacksBirthInfo(CheckedOnCreate(vals, draw, today))
    ensures !LacksBirthInfo(CreatedRow(vals, draw, today))
  {
    CreateRefusesAsWritten(vals, draw, today);
  }

  /** The corrected `create` refuses exactly the values that lack birth information
      themselves: a positive given age is kept as read, and without one the age computed from
      no birthdate is 0. */
  lemma CreateRefusesExactlyLacking(vals: Partner, draw: SequenceDraw, today: CalendarDate)
    ensures LacksBirthInfo(CreatedRow(vals, draw, today)) <==> LacksBirthInfo(vals)
  {
  }

  /** `create` syncs the new partner when it has a reference and is a customer. */
  predicate SyncsOnCreate(p: Partner) {
    p.ref != "" && p.customerRank > 0
  }

  /** The fields of `write(vals)` the triggers, the constraint and the payload read, each
      `Some` when it is a key of `vals`; `keys` are the other keys of `vals`. */
  datatype WriteVals = WriteVals(
    keys: set<string>,
    ref: Option<string>,
    customerRank: Option<int>,
    birthdate: Option<Option<CalendarDate>>,
    age: Option<int>)

  /** The keys of `vals`. */
  function WrittenKeys(v: WriteVals): (ks: set<string>)
    ensures v.keys <= ks
    ensures "ref" in ks <==> "ref" in v.keys || v.ref.Some?
    ensures "customer_rank" in ks <==> "customer_rank" in v.keys || v.customerRank.Some?
    ensures "birthdate" in ks <==> "birthdate" in v.keys || v.birthdate.Some?
    ensures "age" in ks <==> "age" in v.keys || v.age.Some?
  {
    v.keys
      + (if v.ref.Some? then {"ref"} else {})
      + (if v.customerRank.Some? then {"customer_rank"} else {})
      + (if v.birthdate.Some? then {"birthdate"} else {})
      + (if v.age.Some? then {"age"} else {})
  }

  /** One partner once the inherited `write(vals)` has stored its values, before `_inverse_age`:
      the stored fields take their values, a written age is kept as read, and otherwise the
      non-stored age is computed from the birthdate. */
  function StoredPart(p: Partner, v: WriteVals, today: CalendarDate): (q: Partner)
    ensures q == p.(ref := q.ref, customerRank := q.customerRank, birthdate := q.birthdate, age := q.age)
    ensures q.ref == v.ref.GetOr(p.ref) && q.customerRank == v.customerRank.GetOr(p.customerRank)
    ensures q.birthdate == v.birthdate.GetOr(p.birthdate)
    ensures q.age == if v.age.Some? then v.age.value else AgeOn(today, q.birthdate)
  {
    var stored := p.(ref := v.ref.GetOr(p.ref),
                     customerRank := v.customerRank.GetOr(p.customerRank),
                     birthdate := v.birthdate.GetOr(p.birthdate));
    if v.age.Some? then stored.(age := v.age.value) else WithComputedAge(stored, today)
  }

  /** The partners `ids` of `m` with `vals` stored. */
  function StoredMap(m: map<RecordId, Partner>, ids: seq<RecordId>, v: WriteVals, today: CalendarDate): (r: map<RecordId, Partner>)
    ensures r.Keys == m.Keys
    ensures forall k :: k in m ==> r[k] == if k in ids then StoredPart(m[k], v, today) else m[k]
  {
    map k | k in m :: if k in ids then StoredPart(m[k], v, today) else m[k]
  }

  /** One partner after the inherited `write(vals)`: the stored fields take their values; then a
      written age is kept as read and runs `_inverse_age`, while otherwise the non-stored age is
      computed from the birthdate. */
  function Applied(p: Partner, v: WriteVals, today: CalendarDate): (q: Partner)
    ensures q == p.(ref := q.ref, customerRank := q.customerRank, birthdate := q.birthdate, age := q.age)
    ensures q.ref == v.ref.GetOr(p.ref) && q.customerRank == v.customerRank.GetOr(p.customerRank)
    ensures v.age.Some? ==> q.age == v.age.value
    ensures v.age.None? ==> q.age == AgeOn(today, q.birthdate) && q.birthdate == v.birthdate.GetOr(p.birthdate)
    ensures v.age.Some? && v.age.value > 0 && today.year - v.age.value >= 1 ==>
      q.birthdate == JanFirstYearsAgo(today, v.age.value)
    ensures v.age.Some? && !(v.age.value > 0 && today.year - v.age.value >= 1) ==>
      q.birthdate == v.birthdate.GetOr(p.birthdate)
  {
    var q := StoredPart(p, v, today);
    if v.age.Some? then WithInvertedAge(q, today) else q
  }

  /** A written partner lacks birth information exactly when, after the stored fields are
      written, it is a non-company customer without birthdate and no positive age was written. */
  lemma WrittenLacksBirthInfo(p: Partner, v: WriteVals, today: CalendarDate)
    ensures var stored := v.birthdate.GetOr(p.birthdate);
      LacksBirthInfo(Applied(p, v, today)) <==>
        v.customerRank.GetOr(p.customerRank) > 0 && !p.isCompany && stored.None?
        && !(v.age.Some? && v.age.value > 0)
  {
  }

  /** Writing an age moves the payload birthdate: `write({'age': a})` on a partner that has a
      birthdate sends 1 January `a` years ago, not the old birthdate. */
  lemma WrittenAgeReachesPayload(p: Partner, a: int, today: CalendarDate)
    requires a > 0 && today.year - a >= 1
    ensures var q := Applied(p, WriteVals({}, None, None, None, Some(a)), today);
      q.birthdate == JanFirstYearsAgo(today, a)
      && BirthText(q, today) == Ok(IsoFormat(JanFirstYearsAgo(today, a).value))
  {
  }

  const SyncFields: set<string> := {"ref", "name", "phone", "email", "uuid", "birthdate", "age", "gender"}

  /** The fields `_check_birthdate_or_age` is declared on; the constraint runs when `vals`
      names one of them. */
  const ConstraintFields: set<string> := {"birthdate", "age", "customer_rank", "gender"}

  predicate TouchesSyncFields(v: WriteVals) {
    WrittenKeys(v) * SyncFields != {}
  }

  predicate ChecksConstraint(v: WriteVals) {
    WrittenKeys(v) * ConstraintFields != {}
  }

  /** `self.customer_rank` on a recordset: 0 for none, the value for one, ValueError for more. */
  function RecordsetRank(ps: seq<Partner>): (r: Result<int>)
    ensures r.Err? <==> |ps| > 1
  {
    if |ps| == 0 then Ok(0)
    else if |ps| == 1 then Ok(ps[0].customerRank)
    else Err("ValueError", "Expected singleton: res.partner")
  }

  predicate HasRef(p: Partner) {
    p.ref != ""
  }

  predicate IsRefCustomer(p: Partner) {
    p.ref != "" && p.customerRank > 0
  }

  /** The partners `write` syncs, as written: the customer test reads the rank of the whole
      recordset, which raises for more than one partner. Odoo's message also lists the
      recordset's ids ("Expected singleton: res.partner(1, 2)"); the model leaves them out. */
  function WriteSyncTargetsAsWritten(v: WriteVals, ps: seq<Partner>): (r: Result<seq<Partner>>)
    ensures !TouchesSyncFields(v) ==> r == Ok([])
    ensures TouchesSyncFields(v) ==> (r.Err? <==> |ps| > 1)
    ensures r.Err? ==> r == Err("ValueError", "Expected singleton: res.partner")
    ensures |ps| == 1 && r.Ok? ==> r.value == if TouchesSyncFields(v) && IsRefCustomer(ps[0]) then ps else []
    ensures |ps| == 0 ==> r == Ok([])
  {
    if !TouchesSyncFields(v) then Ok([])
    else
      match RecordsetRank(ps)
      case Err(c, m) => Err(c, m)
      case Ok(rank) => if rank > 0 then Ok(Filter(ps, HasRef)) else Ok([])
  }

  /** The partners `write` syncs, as intended: each written partner that is a customer and has
      a reference, in order, when a synced field is written. */
  function WriteSyncTargets(v: WriteVals, ps: seq<Partner>): (r: seq<Partner>)
    ensures forall p :: p in r <==> TouchesSyncFields(v) && p in ps && IsRefCustomer(p)
  {
    if TouchesSyncFields(v) then Filter(ps, IsRefCustomer) else []
  }

  /** On one partner the written code and the intended rule agree. */
  lemma WriteSyncTargetsAgreeOnOne(v: WriteVals, p: Partner)
    ensures WriteSyncTargetsAsWritten(v, [p]) == Ok(WriteSyncTargets(v, [p]))
  {
    assert [p][..0] == [];
  }

  /** Editing the phone of two customers that have references at once raises
      "Expected singleton" after the write, so neither is synced and the transaction is rolled back. */
  lemma MultiPartnerWriteRaises()
    ensures var v := WriteVals({"phone"}, None, None, None, None);
      var p1 := Partner(1, "A", "P1", "", None, 30, "", 1, false, true);
      var p2 := Partner(2, "B", "P2", "", None, 40, "", 1, false, true);
      WriteSyncTargetsAsWritten(v, [p1, p2]).Err?
      && WriteSyncTargets(v, [p1, p2]) == [p1, p2]
  {
    var p1 := Partner(1, "A", "P1", "", None, 30, "", 1, false, true);
    var p2 := Partner(2, "B", "P2", "", None, 40, "", 1, false, true);
    assert "phone" in WrittenKeys(WriteVals({"phone"}, None, None, None, None)) * SyncFields;
    assert [p1, p2][..1] == [p1];
    assert [p1][..0] == [];
  }

  /** The store after `write`'s trigger loop: the written partners in turn, each synced with
      its own delivery outcome when it is a target, a ValueError from one swallowed. */
  ghost function SyncWritten(s: Store, cfg: Config, v: WriteVals, ps: seq<Partner>, outcomes: seq<Outcome>,
                             today: CalendarDate, now: Time): Store
    requires |ps| == |outcomes|
    decreases |ps|
  {
    if ps == [] then s
    else
      var n := |ps| - 1;
      var t := SyncWritten(s, cfg, v, ps[..n], outcomes[..n], today, now);
      if TouchesSyncFields(v) && IsRefCustomer(ps[n]) then SyncPatientSpec(t, cfg, ps[n], today, outcomes[n], now).0 else t
  }

  /** The trigger loop keeps the queue invariant, and leaves the queue alone when no written
      partner is a target. */
  lemma {:induction false} SyncWrittenPreservesInvariant(s: Store, cfg: Config, v: WriteVals, ps: seq<Partner>,
                                                         outcomes: seq<Outcome>, today: CalendarDate, now: Time)
    requires |ps| == |outcomes| && QueueInvariant(s)
    ensures QueueInvariant(SyncWritten(s, cfg, v, ps, outcomes, today, now))
    ensures WriteSyncTargets(v, ps) == [] ==> SyncWritten(s, cfg, v, ps, outcomes, today, now) == s
    decreases |ps|
  {
    if ps != [] {
      var n := |ps| - 1;
      assert ps == ps[..n] + [ps[n]];
      FilterAppend(ps[..n], [ps[n]], IsRefCustomer);
      assert [ps[n]][..0] == [];
      SyncWrittenPreservesInvariant(s, cfg, v, ps[..n], outcomes[..n], today, now);
      var t := SyncWritten(s, cfg, v, ps[..n], outcomes[..n], today, now);
      if TouchesSyncFields(v) && IsRefCustomer(ps[n]) {
        match PatientSyncStep(cfg, ps[n], today, outcomes[n])
        case Filed(a) => AdmitPreservesInvariant(t, a, now);
        case _ =>
      }
    }
  }

  lemma {:induction false} SyncWrittenUntouched(s: Store, cfg: Config, v: WriteVals, ps: seq<Partner>,
                                                outcomes: seq<Outcome>, today: CalendarDate, now: Time)
    requires |ps| == |outcomes| && !TouchesSyncFields(v)
    ensures SyncWritten(s, cfg, v, ps, outcomes, today, now) == s
    decreases |ps|
  {
    if ps != [] {
      SyncWrittenUntouched(s, cfg, v, ps[..|ps| - 1], outcomes[..|ps| - 1], today, now);
    }
  }

  /** Storing the same values twice is storing them once, so a recordset that names a partner
      twice is written as once. */
  lemma StoredTwice(p: Partner, v: WriteVals, today: CalendarDate)
    ensures StoredPart(StoredPart(p, v, today), v, today) == StoredPart(p, v, today)
  {
  }

  /** Writing the same values twice is writing them once. */
  lemma AppliedTwice(p: Partner, v: WriteVals, today: CalendarDate)
    ensures Applied(Applied(p, v, today), v, today) == Applied(p, v, today)
  {
  }

  /** The store after `create(vals)` stores the partner `id`: first the nested sync of the age
      inverse inside the inherited `create` (a positive age that moves the birthdate, on a
      customer with a reference), ending in `inner`, then `create`'s own sync, ending in
      `outcome`. */
  ghost function CreateSyncSpec(s: Store, cfg: Config, vals: Partner, draw: SequenceDraw, id: RecordId, today: CalendarDate,
                                inner: Outcome, outcome: Outcome, now: Time): Store
  {
    var s1 := InverseSyncStore(s, cfg, WithPatientId(vals, draw).(id := id), inner, today, now, false);
    var row := CreatedRow(vals, draw, today).(id := id);
    if SyncsOnCreate(row) then SyncPatientSpec(s1, cfg, row, today, outcome, now).0 else s1
  }

  /** A customer created with a ref and a positive age but another birthdate is sent twice by
      the corrected `create`: a failed first delivery stays filed even when the second is
      delivered. */
  lemma CreateWithAgeSyncsTwice(s: Store, cfg: Config, vals: Partner, draw: SequenceDraw, id: RecordId, today: CalendarDate,
                                inner: Outcome, body: Body, now: Time)
    requires vals.age > 0 && today.year - vals.age >= 1 && vals.birthdate != JanFirstYearsAgo(today, vals.age)
    requires IsRefCustomer(WithPatientId(vals, draw))
    requires !body.JsonValue?
    requires PatientSyncStep(cfg, CreatedRow(vals, draw, today).(id := id), today, inner).Filed?
    ensures CreateSyncSpec(s, cfg, vals, draw, id, today, inner, Response(200, body), now)
      == Admit(s, PatientSyncStep(cfg, CreatedRow(vals, draw, today).(id := id), today, inner).admission, now)
  {
  }
  /** As written, the same holds for such a customer created with a birthdate: `create`
      accepts it and sends it twice. */
  lemma CreateWithAgeSyncsTwiceAsWritten(s: Store, cfg: Config, vals: Partner, draw: SequenceDraw, id: RecordId,
                                         today: CalendarDate, inner: Outcome, body: Body, now: Time)
    requires vals.age > 0 && today.year - vals.age >= 1 && vals.birthdate.Some? && vals.birthdate != JanFirstYearsAgo(today, vals.age)
    requires IsRefCustomer(WithPatientId(vals, draw))
    requires !body.JsonValue?
    requires PatientSyncStep(cfg, CreatedRow(vals, draw, today).(id := id), today, inner).Filed?
    ensures !LacksBirthInfo(CheckedOnCreate(vals, draw, today))
    ensures CreateSyncSpec(s, cfg, vals, draw, id, today, inner, Response(200, body), now)
      == Admit(s, PatientSyncStep(cfg, CreatedRow(vals, draw, today).(id := id), today, inner).admission, now)
  {
    CreateRefusesAsWritten(vals, draw, today);
    CreateWithAgeSyncsTwice(s, cfg, vals, draw, id, today, inner, body, now);
  }


  /** The store after the age inverse of `write(vals)` on the partners `ids`, the nested sync of
      `ids[i]` ending in `inner[i]`; nothing when 'age' is not written. */
  ghost function InverseSynced(m: map<RecordId, Partner>, s: Store, cfg: Config, ids: seq<RecordId>, v: WriteVals,
                               inner: seq<Outcome>, today: CalendarDate, now: Time): Store
    requires |ids| == |inner| && forall t :: 0 <= t < |ids| ==> ids[t] in m
  {
    if v.age.Some? then InversePass(StoredMap(m, ids, v, today), s, cfg, ids, inner, today, now, v.birthdate.Some?).1 else s
  }

  /** `write({'age': a})` on one customer with a reference whose birthdate it moves sends the
      partner once from the nested `write` of the inverse, before `write`'s own sync. */
  lemma WrittenAgeSyncsInInverse(m: map<RecordId, Partner>, s: Store, cfg: Config, k: RecordId, a: int,
                                 o: Outcome, today: CalendarDate, now: Time)
    requires k in m && IsRefCustomer(m[k]) && a > 0 && today.year - a >= 1 && m[k].birthdate != JanFirstYearsAgo(today, a)
    ensures var v := WriteVals({}, None, None, None, Some(a));
      InverseSynced(m, s, cfg, [k], v, [o], today, now) == SyncPatientSpec(s, cfg, Applied(m[k], v, today), today, o, now).0
  {
    var v := WriteVals({}, None, None, None, Some(a));
    var stored := StoredMap(m, [k], v, today);
    assert [k][..0] == [] && [o][..0] == [];
    assert InversePass(stored, s, cfg, [k][..0], [o][..0], today, now, false) == (stored, s);
    var p := stored[k];
    assert p == StoredPart(m[k], v, today);
    assert WithInvertedAge(p, today) == Applied(m[k], v, today);
    assert WithInvertedAge(p, today).birthdate != p.birthdate;
    assert InverseSyncStore(s, cfg, p, o, today, now, false) == SyncPatientSpec(s, cfg, Applied(m[k], v, today), today, o, now).0;
  }

  /** The partners `ids` as they read in `m`. */
  function RecordsAt(m: map<RecordId, Partner>, ids: seq<RecordId>): (r: seq<Partner>)
    requires forall i :: 0 <= i < |ids| ==> ids[i] in m
    ensures |r| == |ids| && forall i :: 0 <= i < |ids| ==> r[i] == m[ids[i]]
  {
    seq(|ids|, i requires 0 <= i < |ids| => m[ids[i]])
  }

  /** `res.partner` as the laboratory extension sees it. */
  class PartnerBook {
    var records: map<RecordId, Partner>
    var nextId: RecordId

    ghost predicate Valid()
      reads this
    {
      forall k :: k in records ==> k < nextId && records[k].id == k
    }

    constructor ()
      ensures Valid() && records == map[] && nextId == 1
    {
      records := map[];
      nextId := 1;
    }

    /** `_compute_age` over the partners `ids`; a no-op under `skip_compute_age`. */
    method ComputeAge(ids: seq<RecordId>, today: CalendarDate, skip: bool)
      requires Valid() && forall i :: 0 <= i < |ids| ==> ids[i] in records
      modifies this
      ensures Valid() && nextId == old(nextId) && records.Keys == old(records).Keys
      ensures skip ==> records == old(records)
      ensures !skip ==> forall k :: k in records ==>
        records[k] == if k in ids then WithComputedAge(old(records)[k], today) else old(records)[k]
    {
      if skip {
        return;
      }
      for i := 0 to |ids|
        invariant Valid() && nextId == old(nextId) && records.Keys == old(records).Keys
        invariant forall k :: k in records ==>
          records[k] == if k in ids[..i] then WithComputedAge(old(records)[k], today) else old(records)[k]
      {
        records := records[ids[i] := WithComputedAge(records[ids[i]], today)];
      }
      assert ids[..|ids|] == ids;
    }

    /** `_inverse_age` over the partners `ids`; a no-op under `skip_inverse_age`. A changed
        birthdate is assigned through the overridden `write` unless `birthdateWritten`, and that
        `write` syncs a customer with a reference, the `i`-th delivery ending in `outcomes[i]`,
        its errors swallowed. */
    method InverseAge(store: EventStore, ids: seq<RecordId>, today: CalendarDate, skip: bool, birthdateWritten: bool,
                      cfg: Config, outcomes: seq<Outcome>, now: Time)
      requires Valid() && store.Valid() && |outcomes| == |ids| && forall i :: 0 <= i < |ids| ==> ids[i] in records
      modifies this, store
      ensures Valid() && store.Valid() && nextId == old(nextId) && records.Keys == old(records).Keys
      ensures skip ==> records == old(records) && store.State() == old(store.State())
      ensures !skip ==>
        (records, store.State()) == InversePass(old(records), old(store.State()), cfg, ids, outcomes, today, now, birthdateWritten)
      ensures !skip ==> forall k :: k in records ==>
        records[k] == if k in ids then WithInvertedAge(old(records)[k], today) else old(records)[k]
    {
      if skip {
        return;
      }
      for i := 0 to |ids|
        invariant Valid() && store.Valid() && nextId == old(nextId) && records.Keys == old(records).Keys
        invariant (records, store.State()) ==
          InversePass(old(records), old(store.State()), cfg, ids[..i], outcomes[..i], today, now, birthdateWritten)
      {
        assert ids[..i + 1][..i] == ids[..i];
        assert outcomes[..i + 1][..i] == outcomes[..i];
        InvertOne(store, ids[i], today, birthdateWritten, cfg, outcomes[i], now);
      }
      assert ids[..|ids|] == ids;
      assert outcomes[..|ids|] == outcomes;
      InversePassRecords(old(records), old(store.State()), cfg, ids, outcomes, today, now, birthdateWritten);
    }

    /** `_inverse_age` for the partner `k`: a changed birthdate assigned through the overridden
        `write`, which syncs a customer with a reference unless `birthdateWritten`. */
    method InvertOne(store: EventStore, k: RecordId, today: CalendarDate, birthdateWritten: bool, cfg: Config,
                     outcome: Outcome, now: Time)
      requires Valid() && store.Valid() && k in records
      modifies this, store
      ensures Valid() && store.Valid() && nextId == old(nextId)
      ensures records == old(records)[k := WithInvertedAge(old(records)[k], today)]
      ensures store.State() == InverseSyncStore(old(store.State()), cfg, old(records)[k], outcome, today, now, birthdateWritten)
    {
      var p := records[k];
      var q := WithInvertedAge(p, today);
      records := records[k := q];
      if !birthdateWritten && q.birthdate != p.birthdate && q.ref != "" && q.customerRank > 0 {
        var _ := SyncPatient(store, cfg, q, today, outcome, now);
      }
    }

    /** `_check_birthdate_or_age` over the partners `ids`: ValidationError exactly when one of
        them is a non-company customer with neither birthdate nor positive age. */
    method CheckBirthdateOrAge(ids: seq<RecordId>) returns (r: Result<()>)
      requires forall i :: 0 <= i < |ids| ==> ids[i] in records
      ensures r.Err? <==> exists i :: 0 <= i < |ids| && LacksBirthInfo(records[ids[i]])
      ensures r.Err? ==> r == Err("ValidationError", MissingBirthInfo)
    {
      for i := 0 to |ids|
        invariant forall j :: 0 <= j < i ==> !LacksBirthInfo(records[ids[j]])
      {
        var p := records[ids[i]];
        if p.customerRank > 0 && !p.isCompany {
          var hasBirthdate := p.birthdate.Some?;
          var hasAge := p.age > 0;
          if !hasBirthdate && !hasAge {
            return Err("ValidationError", MissingBirthInfo);
          }
        }
      }
      return Ok(());
    }

    /** `_sync_patient_to_openelis(partner)`. */
    static method SyncPatient(store: EventStore, cfg: Config, p: Partner, today: CalendarDate, outcome: Outcome, now: Time)
      returns (r: Result<()>)
      requires store.Valid()
      modifies store
      ensures store.Valid()
      ensures (store.State(), r) == SyncPatientSpec(old(store.State()), cfg, p, today, outcome, now)
    {
      if !cfg.patientSyncEnabled || cfg.apiUrl == "" {
        return Ok(());
      }
      var birth := BirthText(p, today);
      if birth.Err? {
        return Err("ValueError", birth.message);
      }
      var payload := PatientPayload(p.ref, birth.value);
      match outcome {
        case Response(code, body) =>
          if body.JsonValue? {
            var e := NoGetError(body.typeName);
            var _ := store.CreateOrUpdate(Admission(Patient, payload, e.message, ErrorTypeOf(e), Some(p.id), p.ref, None), now);
          } else if code != 200 {
            var _ := store.CreateOrUpdate(Admission(Patient, payload, FailureText(code, body), HttpErrorType(code), Some(p.id), p.ref, None), now);
          }
        case Raised(e) =>
          var _ := store.CreateOrUpdate(Admission(Patient, payload, e.message, ErrorTypeOf(e), Some(p.id), p.ref, None), now);
      }
      r := Ok(());
    }

    /** `create(vals)` as written: a patient id for a customer created without one, the row
        itself, then `_check_birthdate_or_age` inside the inherited `create`, on the age
        computed from the given birthdate; its ValidationError rolls the row back (the record id
        stays used). Otherwise, for a positive age, the inverse, whose nested `write` syncs
        (ending in `inner`), then `create`'s own sync (ending in `outcome`). The errors of both
        syncs are swallowed, and neither the sequence nor a sync can stop the creation. */
    method CreateAsWritten(store: EventStore, vals: Partner, draw: SequenceDraw, cfg: Config, today: CalendarDate,
                           inner: Outcome, outcome: Outcome, now: Time) returns (r: Result<RecordId>)
      requires Valid() && store.Valid()
      modifies this, store
      ensures Valid() && store.Valid() && nextId == old(nextId) + 1
      ensures r.Err? <==> LacksBirthInfo(CheckedOnCreate(vals, draw, today))
      ensures r.Err? ==> r == Err("ValidationError", MissingBirthInfo) && records == old(records) && store.State() == old(store.State())
      ensures r.Ok? ==> r.value == old(nextId) && r.value !in old(records)
      ensures r.Ok? ==> records == old(records)[r.value := CreatedRow(vals, draw, today).(id := r.value)]
      ensures r.Ok? ==> store.State() == CreateSyncSpec(old(store.State()), cfg, vals, draw, r.value, today, inner, outcome, now)
    {
      var saved := records;
      var id := StoreChecked(vals, draw, today);
      var check := CheckBirthdateOrAge([id]);
      assert [id][0] == id;
      if check.Err? {
        records := saved;
        return Err("ValidationError", MissingBirthInfo);
      }
      ghost var checked := records;
      FinishCreated(store, id, vals, draw, cfg, today, inner, outcome, now);
      assert records == checked[id := CreatedRow(vals, draw, today).(id := id)];
      r := Ok(id);
    }

    /** `create(vals)` with the constraint reading the given age, as its message and the age's
        help text intend: a patient id for a customer created without one, the row itself, then
        for a positive age the inverse, whose nested `write` syncs (ending in `inner`), then
        `_check_birthdate_or_age`, whose ValidationError rolls the row back (the record id stays
        used); otherwise `create`'s own sync (ending in `outcome`). The errors of both syncs are
        swallowed, and neither the sequence nor a sync can stop the creation. */
    method Create(store: EventStore, vals: Partner, draw: SequenceDraw, cfg: Config, today: CalendarDate,
                  inner: Outcome, outcome: Outcome, now: Time) returns (r: Result<RecordId>)
      requires Valid() && store.Valid()
      modifies this, store
      ensures Valid() && store.Valid() && nextId == old(nextId) + 1
      ensures r.Err? <==> LacksBirthInfo(CreatedRow(vals, draw, today))
      ensures r.Err? ==> r == Err("ValidationError", MissingBirthInfo) && records == old(records) && store.State() == old(store.State())
      ensures r.Ok? ==> r.value == old(nextId) && r.value !in old(records)
      ensures r.Ok? ==> records == old(records)[r.value := CreatedRow(vals, draw, today).(id := r.value)]
      ensures r.Ok? ==> store.State() == CreateSyncSpec(old(store.State()), cfg, vals, draw, r.value, today, inner, outcome, now)
    {
      var row := CreatedRow(vals, draw, today);
      var saved := records;
      var id := StoreCreated(store, vals, draw, cfg, today, inner, now);
      var check := CheckBirthdateOrAge([id]);
      assert [id][0] == id && (LacksBirthInfo(records[id]) <==> LacksBirthInfo(row));
      if check.Err? {
        records := saved;
        return Err("ValidationError", MissingBirthInfo);
      }
      SyncCreated(store, id, vals, draw, cfg, today, inner, outcome, now, old(store.State()));
      r := Ok(id);
    }

    /** The rest of `create(vals)` once the row `id` has passed the check: the inverse with its
        nested sync, then `create`'s own sync. */
    method FinishCreated(store: EventStore, id: RecordId, vals: Partner, draw: SequenceDraw, cfg: Config,
                         today: CalendarDate, inner: Outcome, outcome: Outcome, now: Time)
      requires Valid() && store.Valid() && id in records && records[id] == CheckedOnCreate(vals, draw, today).(id := id)
      modifies this, store
      ensures Valid() && store.Valid() && nextId == old(nextId)
      ensures records == old(records)[id := CreatedRow(vals, draw, today).(id := id)]
      ensures store.State() == CreateSyncSpec(old(store.State()), cfg, vals, draw, id, today, inner, outcome, now)
    {
      InverseCreated(store, id, vals, draw, cfg, today, inner, now);
      SyncCreated(store, id, vals, draw, cfg, today, inner, outcome, now, old(store.State()));
    }

    /** `create`'s own sync of the partner `id` it has stored, when that partner is a customer
        with a reference, ending in `outcome`; its errors are swallowed. */
    method SyncCreated(store: EventStore, id: RecordId, vals: Partner, draw: SequenceDraw, cfg: Config,
                       today: CalendarDate, inner: Outcome, outcome: Outcome, now: Time, ghost before: Store)
      requires store.Valid() && id in records && records[id] == CreatedRow(vals, draw, today).(id := id)
      requires store.State() == InverseSyncStore(before, cfg, WithPatientId(vals, draw).(id := id), inner, today, now, false)
      modifies store
      ensures store.Valid()
      ensures store.State() == CreateSyncSpec(before, cfg, vals, draw, id, today, inner, outcome, now)
    {
      var partner := records[id];
      if partner.ref != "" && partner.customerRank > 0 {
        var _ := SyncPatient(store, cfg, partner, today, outcome, now);
      }
    }

    /** The inherited `create(vals)` with the constraint left to the caller: the row with its
        patient id stored under the next id, then for a positive age `_inverse_age`, whose nested
        `write` syncs, ending in `inner`. */
    method StoreCreated(store: EventStore, vals: Partner, draw: SequenceDraw, cfg: Config, today: CalendarDate,
                        inner: Outcome, now: Time) returns (id: RecordId)
      requires Valid() && store.Valid()
      modifies this, store
      ensures Valid() && store.Valid() && id == old(nextId) && id !in old(records) && nextId == old(nextId) + 1
      ensures records == old(records)[id := CreatedRow(vals, draw, today).(id := id)]
      ensures store.State() == InverseSyncStore(old(store.State()), cfg, WithPatientId(vals, draw).(id := id), inner, today, now, false)
      ensures !(vals.age > 0) ==> store.State() == old(store.State())
    {
      id := StoreChecked(vals, draw, today);
      ghost var checked := records;
      InverseCreated(store, id, vals, draw, cfg, today, inner, now);
      assert records == checked[id := CreatedRow(vals, draw, today).(id := id)];
    }

    /** The row of the inherited `create(vals)` stored under the next id, before `_inverse_age`:
        the stored fields with the patient id, and the age computed from the birthdate. */
    method StoreChecked(vals: Partner, draw: SequenceDraw, today: CalendarDate) returns (id: RecordId)
      requires Valid()
      modifies this
      ensures Valid() && id == old(nextId) && id !in old(records) && nextId == old(nextId) + 1
      ensures records == old(records)[id := CheckedOnCreate(vals, draw, today).(id := id)]
    {
      id := nextId;
      nextId := nextId + 1;
      records := records[id := CheckedOnCreate(vals, draw, today).(id := id)];
    }

    /** `_inverse_age` on the partner `id` just created: a positive given age is put in the
        cache and inverted, and the nested `write` of a moved birthdate syncs, ending in `inner`. */
    method InverseCreated(store: EventStore, id: RecordId, vals: Partner, draw: SequenceDraw, cfg: Config,
                          today: CalendarDate, inner: Outcome, now: Time)
      requires Valid() && store.Valid() && id in records && records[id] == CheckedOnCreate(vals, draw, today).(id := id)
      modifies this, store
      ensures Valid() && store.Valid() && nextId == old(nextId)
      ensures records == old(records)[id := CreatedRow(vals, draw, today).(id := id)]
      ensures store.State() == InverseSyncStore(old(store.State()), cfg, WithPatientId(vals, draw).(id := id), inner, today, now, false)
      ensures !(vals.age > 0) ==> store.State() == old(store.State())
    {
      var stored := WithPatientId(vals, draw);
      CreatedRowSteps(vals, draw, today, id, store.State(), cfg, inner, now);
      if stored.age > 0 {
        records := records[id := stored.(id := id)];
        InvertOne(store, id, today, false, cfg, inner, now);
      } else {
        assert records == old(records)[id := CreatedRow(vals, draw, today).(id := id)];
      }
    }

    /** The inherited `write(vals)` storing its values on the partners `ids`, before
        `_inverse_age` and the constraint check. */
    method WriteRecords(ids: seq<RecordId>, v: WriteVals, today: CalendarDate)
      requires Valid() && forall i :: 0 <= i < |ids| ==> ids[i] in records
      modifies this
      ensures Valid() && nextId == old(nextId)
      ensures records == StoredMap(old(records), ids, v, today)
    {
      for i := 0 to |ids|
        invariant Valid() && nextId == old(nextId) && records.Keys == old(records).Keys
        invariant forall k :: k in records ==> records[k] == if k in ids[..i] then StoredPart(old(records)[k], v, today) else old(records)[k]
      {
        var k := ids[i];
        StoredTwice(old(records)[k], v, today);
        records := records[k := StoredPart(records[k], v, today)];
      }
      assert ids[..|ids|] == ids;
      assert records == StoredMap(old(records), ids, v, today);
    }

    /** The inherited `write(vals)` on the partners `ids`: the values stored, then `_inverse_age`
        when 'age' is written, whose nested sync of `ids[i]` ends in `inner[i]`. */
    method InheritedWrite(store: EventStore, ids: seq<RecordId>, v: WriteVals, cfg: Config, today: CalendarDate,
                          inner: seq<Outcome>, now: Time)
      requires Valid() && store.Valid()
      requires forall i :: 0 <= i < |ids| ==> ids[i] in records
      requires |inner| == |ids|
      modifies this, store
      ensures Valid() && store.Valid() && nextId == old(nextId) && records.Keys == old(records).Keys
      ensures forall k :: k in records ==> records[k] == if k in ids then Applied(old(records)[k], v, today) else old(records)[k]
      ensures store.State() == InverseSynced(old(records), old(store.State()), cfg, ids, v, inner, today, now)
      ensures !(v.age.Some? && v.age.value > 0) ==> store.State() == old(store.State())
    {
      WriteRecords(ids, v, today);
      ghost var stored := records;
      if v.age.Some? {
        InverseAge(store, ids, today, false, v.birthdate.Some?, cfg, inner, now);
        if v.age.value <= 0 {
          InversePassQuiet(stored, old(store.State()), cfg, ids, inner, today, now, v.birthdate.Some?);
        }
      }
    }

    /** The trigger loop of `write` over the written partners. */
    static method SyncWrittenPartners(store: EventStore, cfg: Config, v: WriteVals, ps: seq<Partner>,
                                      outcomes: seq<Outcome>, today: CalendarDate, now: Time)
      requires store.Valid() && |outcomes| == |ps|
      modifies store
      ensures store.Valid()
      ensures store.State() == SyncWritten(old(store.State()), cfg, v, ps, outcomes, today, now)
    {
      if !TouchesSyncFields(v) {
        SyncWrittenUntouched(store.State(), cfg, v, ps, outcomes, today, now);
        return;
      }
      for i := 0 to |ps|
        invariant store.Valid()
        invariant store.State() == SyncWritten(old(store.State()), cfg, v, ps[..i], outcomes[..i], today, now)
      {
        assert ps[..i + 1][..i] == ps[..i];
        assert outcomes[..i + 1][..i] == outcomes[..i];
        var partner := ps[i];
        if partner.ref != "" && partner.customerRank > 0 {
          var _ := SyncPatient(store, cfg, partner, today, outcomes[i], now);
        }
      }
      assert ps[..|ps|] == ps;
      assert outcomes[..|ps|] == outcomes;
    }

    /** `write(vals)` on the partners `ids`, with the customer test made per partner (see
        `WriteSyncTargetsAsWritten` for the code as written): the values are written; when `vals`
        names a constrained field, a written partner lacking birth information raises
        ValidationError and the write is rolled back; otherwise every written partner that is a
        customer with a reference is synced in turn. */
    method Write(store: EventStore, ids: seq<RecordId>, v: WriteVals, cfg: Config, today: CalendarDate,
                 inner: seq<Outcome>, outcomes: seq<Outcome>, now: Time) returns (r: Result<()>)
      requires Valid() && store.Valid()
      requires forall i :: 0 <= i < |ids| ==> ids[i] in records
      requires |inner| == |ids| && |outcomes| == |ids|
      modifies this, store
      ensures Valid() && store.Valid() && nextId == old(nextId) && records.Keys == old(records).Keys
      ensures r.Err? <==> ChecksConstraint(v) && exists i :: 0 <= i < |ids| && LacksBirthInfo(Applied(old(records)[ids[i]], v, today))
      ensures r.Err? ==> r == Err("ValidationError", MissingBirthInfo) && records == old(records) && store.State() == old(store.State())
      ensures r.Ok? ==> forall k :: k in records ==> records[k] == if k in ids then Applied(old(records)[k], v, today) else old(records)[k]
      ensures r.Ok? ==>
        store.State() == SyncWritten(InverseSynced(old(records), old(store.State()), cfg, ids, v, inner, today, now), cfg, v, RecordsAt(records, ids), outcomes, today, now)
    {
      var saved := records;
      InheritedWrite(store, ids, v, cfg, today, inner, now);
      if ChecksConstraint(v) {
        var check := CheckBirthdateOrAge(ids);
        if check.Err? {
          assert !(v.age.Some? && v.age.value > 0) by {
            var i :| 0 <= i < |ids| && LacksBirthInfo(records[ids[i]]);
          }
          records := saved;
          return Err("ValidationError", MissingBirthInfo);
        }
      }
      SyncWrittenPartners(store, cfg, v, RecordsAt(records, ids), outcomes, today, now);
      r := Ok(());
    }
  }
}
