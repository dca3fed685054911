/** The radiology extension of `res.partner`: the patient flag follows the company flag in
    the form, age and birthdate are kept in step, and patients receive a UUID and a patient id
    drawn from the patient sequence, at most ten draws per partner, skipping ids already in use. */
module OrthancPartner {
  import opened Wrappers
  import opened Text
  import opened Dates
  import opened Domain

  /** How many sequence values one partner may draw before it is left without an id. */
  const MaxIdDraws: nat := 10

  /** `_onchange_is_company`: the form's patient flag becomes the negation of the company flag. */
  function OnchangeIsCompany(p: Partner): (q: Partner)
    ensures q == p.(isPatient := q.isPatient)
    ensures q.isPatient <==> !p.isCompany
  {
    p.(isPatient := !p.isCompany)
  }

  /** The references partners hold. */
  function UsedRefs(m: map<RecordId, Partner>): set<string> {
    set k | k in m && m[k].ref != "" :: m[k].ref
  }

  /** No two partners share a non-empty reference. */
  ghost predicate UniqueRefs(m: map<RecordId, Partner>) {
    forall a, b :: a in m && b in m && a != b && m[a].ref != "" ==> m[b].ref != m[a].ref
  }

  /** The patient-id retry loop: the sequence draws `at`, `at + 1`, ... (at most `left` of
      them); the first non-empty value not in `used` becomes the id, and an empty value or a
      failing sequence ends the loop without one. Also the position of the next draw. */
  function FreeRef(used: set<string>, draw: nat -> SequenceDraw, at: nat, left: nat): (r: (Option<string>, nat))
    ensures at <= r.1 <= at + left
    decreases left
  {
    if left == 0 then (None, at)
    else
      match draw(at)
      case Next(v) =>
        if v == "" then (None, at + 1)
        else if v !in used then (Some(v), at + 1)
        else FreeRef(used, draw, at + 1, left - 1)
      case _ => (None, at + 1)
  }

  /** What the retry loop promises: the id it returns is the last value drawn, is non-empty
      and is not in use; every earlier draw gave a value in use; and a loop that ends without
      an id either met an empty value or a failing sequence, or used up its draws on values in
      use. */
  lemma {:induction false} FreeRefMeaning(used: set<string>, draw: nat -> SequenceDraw, at: nat, left: nat)
    ensures var r := FreeRef(used, draw, at, left);
      && (r.0.Some? ==> r.1 > at && draw(r.1 - 1) == Next(r.0.value) && r.0.value != "" && r.0.value !in used)
      && (forall i :: at <= i < r.1 - 1 ==> draw(i).Next? && draw(i).value != "" && draw(i).value in used)
      && (r.0.None? && r.1 < at + left ==> r.1 > at && !(draw(r.1 - 1).Next? && draw(r.1 - 1).value != ""))
      && (r.0.None? && r.1 == at + left && r.1 > at ==>
            !(draw(r.1 - 1).Next? && draw(r.1 - 1).value != "" && draw(r.1 - 1).value !in used))
    decreases left
  {
    if left > 0 && draw(at).Next? && draw(at).value != "" && draw(at).value in used {
      FreeRefMeaning(used, draw, at + 1, left - 1);
    }
  }

  /** A drawn id keeps the references unique. */
  lemma FreeRefKeepsUnique(m: map<RecordId, Partner>, k: RecordId, draw: nat -> SequenceDraw, at: nat, left: nat)
    requires UniqueRefs(m) && k in m
    ensures var r := FreeRef(UsedRefs(m), draw, at, left);
      r.0.Some? ==> UniqueRefs(m[k := m[k].(ref := r.0.value)])
  {
    var r := FreeRef(UsedRefs(m), draw, at, left);
    FreeRefMeaning(UsedRefs(m), draw, at, left);
    if r.0.Some? {
      var m2 := m[k := m[k].(ref := r.0.value)];
      forall a, b | a in m2 && b in m2 && a != b && m2[a].ref != ""
        ensures m2[b].ref != m2[a].ref
      {
        if a == k {
          assert m[b].ref != "" ==> m[b].ref in UsedRefs(m);
        } else if b == k {
          assert m[a].ref in UsedRefs(m);
        }
      }
    }
  }

  /** The birthdate `_inverse_age` sets: 1 January `age` years ago for a positive age, where
      that year is at least 1, else no change; `None` where `date()` raises. */
  function InvertedAge(p: Partner, today: CalendarDate): (r: Option<Partner>)
    ensures r.None? <==> p.age > 0 && today.year - p.age < 1
    ensures r.Some? && p.age > 0 ==> r.value == p.(birthdate := JanFirstYearsAgo(today, p.age))
    ensures r.Some? && p.age <= 0 ==> r.value == p
  {
    if p.age > 0 then
      var year := today.year - p.age;
      if year < 1 then None
      else
        var born: CalendarDate := Date(year, 1, 1);
        Some(p.(birthdate := Some(born)))
    else Some(p)
  }

  /** `_inverse_age` for one partner as Odoo runs it: `InvertedAge`, where for a positive age
      the new birthdate is assigned through the overridden `write`, unless the birthdate is
      itself among the fields being written (Odoo then stores it without calling `write`);
      that nested `write`'s UUID pass gives a partner without a UUID the fresh `uuid`. */
  function InverseWritten(p: Partner, today: CalendarDate, birthdateWritten: bool, uuid: string): (r: Option<Partner>)
    ensures r.None? <==> InvertedAge(p, today).None?
    ensures r.Some? && p.age > 0 ==> r.value == p.(birthdate := JanFirstYearsAgo(today, p.age), uuid := r.value.uuid)
    ensures r.Some? && p.age > 0 ==> r.value.uuid == if !birthdateWritten && p.uuid == "" then uuid else p.uuid
    ensures r.Some? && p.age <= 0 ==> r.value == p
  {
    match InvertedAge(p, today)
    case None => None
    case Some(q) => Some(if p.age > 0 && !birthdateWritten && q.uuid == "" then q.(uuid := uuid) else q)
  }

  /** Running the inverse on its own result changes nothing more, so a partner named twice is
      inverted as once. */
  lemma InverseWrittenTwice(p: Partner, today: CalendarDate, birthdateWritten: bool, uuid: string)
    requires InvertedAge(p, today).Some?
    ensures InverseWritten(p, today, birthdateWritten, uuid).Some?
    ensures var q := InverseWritten(p, today, birthdateWritten, uuid).value;
      InverseWritten(q, today, birthdateWritten, uuid) == Some(q)
  {
  }

  /** Writing a positive age and computing it again gives the age back. */
  lemma InverseThenComputeAge(p: Partner, today: CalendarDate)
    requires p.age > 0 && InvertedAge(p, today).Some?
    ensures AgeOn(today, InvertedAge(p, today).value.birthdate) == p.age
  {
    AgeOfJanFirstYearsAgo(today, p.age);
  }

  /** The values of `create(vals)`; "" stands for a missing or falsy text value and `false`
      for a missing or falsy `is_company`; `isPatient` is None when `vals` has no 'is_patient'. */
  datatype PatientVals = PatientVals(
    name: string,
    ref: string,
    uuid: string,
    birthdate: Option<CalendarDate>,
    gender: string,
    isCompany: bool,
    isPatient: Option<bool>)

  /** `create` draws a patient id only for an explicit truthy 'is_patient', no company flag
      and no reference. */
  predicate DrawsId(vals: PatientVals) {
    vals.isPatient == Some(true) && !vals.isCompany && vals.ref == ""
  }

  /** The partner `create` stores under `id` with the reference `ref`. */
  function NewPatient(id: RecordId, vals: PatientVals, ref: string, freshUuid: string, today: CalendarDate): (p: Partner)
    ensures p.id == id && p.ref == ref && p.name == vals.name && p.birthdate == vals.birthdate
    ensures p.uuid == if vals.uuid != "" then vals.uuid else freshUuid
    ensures p.isPatient == vals.isPatient.GetOr(true) && p.isCompany == vals.isCompany
    ensures p.age == AgeOn(today, vals.birthdate)
  {
    Partner(id, vals.name, ref, if vals.uuid != "" then vals.uuid else freshUuid, vals.birthdate,
            AgeOn(today, vals.birthdate), vals.gender, 0, vals.isCompany, vals.isPatient.GetOr(true))
  }

  /** The values of `write(vals)` this extension reads or writes; None for a missing key. */
  datatype PatientWrite = PatientWrite(
    isPatient: Option<bool>,
    isCompany: Option<bool>,
    ref: Option<string>,
    uuid: Option<string>,
    name: Option<string>,
    birthdate: Option<Option<CalendarDate>>,
    gender: Option<string>,
    age: Option<int>)

  /** One partner after the parent `write(vals)` stores its values, before `_inverse_age`: the
      written fields take their values; a written age is kept as read, and otherwise the
      non-stored age is computed from the resulting birthdate. */
  function AppliedWrite(p: Partner, v: PatientWrite, today: CalendarDate): (q: Partner)
    ensures q.id == p.id && q.customerRank == p.customerRank
    ensures q.isPatient == v.isPatient.GetOr(p.isPatient) && q.isCompany == v.isCompany.GetOr(p.isCompany)
    ensures q.ref == v.ref.GetOr(p.ref) && q.uuid == v.uuid.GetOr(p.uuid) && q.name == v.name.GetOr(p.name)
    ensures q.birthdate == v.birthdate.GetOr(p.birthdate) && q.gender == v.gender.GetOr(p.gender)
    ensures v.age.Some? ==> q.age == v.age.value
    ensures v.age.None? ==> q.age == AgeOn(today, q.birthdate)
  {
    var birthdate := v.birthdate.GetOr(p.birthdate);
    p.(isPatient := v.isPatient.GetOr(p.isPatient), isCompany := v.isCompany.GetOr(p.isCompany),
       ref := v.ref.GetOr(p.ref), uuid := v.uuid.GetOr(p.uuid), name := v.name.GetOr(p.name),
       birthdate := birthdate, gender := v.gender.GetOr(p.gender),
       age := if v.age.Some? then v.age.value else AgeOn(today, birthdate))
  }

  /** The partner `ids[i]` still needs an id. */
  predicate NeedsId(m: map<RecordId, Partner>, k: RecordId)
    requires k in m
  {
    m[k].ref == "" && !m[k].isCompany
  }

  /** `write`'s patient-id pass over the partners `ids[i..]`: each ref-less non-company
      partner draws as `FreeRef` says against the references in use at that moment. Also the
      position of the next draw. */
  function AssignIds(m: map<RecordId, Partner>, ids: seq<RecordId>, i: nat, draw: nat -> SequenceDraw, at: nat)
    : (r: (map<RecordId, Partner>, nat))
    requires i <= |ids| && forall t :: 0 <= t < |ids| ==> ids[t] in m
    ensures r.0.Keys == m.Keys && at <= r.1 <= at + MaxIdDraws * (|ids| - i)
    ensures forall k :: k in m ==> r.0[k] == m[k].(ref := r.0[k].ref)
    ensures forall k :: k in m && m[k].ref != "" ==> r.0[k] == m[k]
    decreases |ids| - i
  {
    if i == |ids| then (m, at)
    else
      var k := ids[i];
      if NeedsId(m, k) then
        var drawn := FreeRef(UsedRefs(m), draw, at, MaxIdDraws);
        var m2 := if drawn.0.Some? then m[k := m[k].(ref := drawn.0.value)] else m;
        AssignIds(m2, ids, i + 1, draw, drawn.1)
      else AssignIds(m, ids, i + 1, draw, at)
  }

  /** The patient-id pass keeps references unique. */
  lemma {:induction false} AssignIdsKeepsUnique(m: map<RecordId, Partner>, ids: seq<RecordId>, i: nat, draw: nat -> SequenceDraw, at: nat)
    requires i <= |ids| && (forall t :: 0 <= t < |ids| ==> ids[t] in m) && UniqueRefs(m)
    ensures UniqueRefs(AssignIds(m, ids, i, draw, at).0)
    decreases |ids| - i
  {
    if i < |ids| {
      var k := ids[i];
      if NeedsId(m, k) {
        var drawn := FreeRef(UsedRefs(m), draw, at, MaxIdDraws);
        FreeRefKeepsUnique(m, k, draw, at, MaxIdDraws);
        var m2 := if drawn.0.Some? then m[k := m[k].(ref := drawn.0.value)] else m;
        AssignIdsKeepsUnique(m2, ids, i + 1, draw, drawn.1);
      } else {
        AssignIdsKeepsUnique(m, ids, i + 1, draw, at);
      }
    }
  }

  /** `write`'s UUID pass: every partner of `ids` without a UUID receives a fresh one. */
  function FillUuids(m: map<RecordId, Partner>, ids: seq<RecordId>, uuidFor: RecordId -> string): (r: map<RecordId, Partner>)
    ensures r.Keys == m.Keys
    ensures forall k :: k in m ==> r[k] == m[k].(uuid := r[k].uuid)
    ensures forall k :: k in m ==> r[k].uuid == if k in ids && m[k].uuid == "" then uuidFor(k) else m[k].uuid
  {
    map k | k in m :: if k in ids && m[k].uuid == "" then m[k].(uuid := uuidFor(k)) else m[k]
  }

  /** `vals` stored on each of the partners `ids`. */
  function ApplyWrite(m: map<RecordId, Partner>, ids: seq<RecordId>, vals: PatientWrite, today: CalendarDate): (r: map<RecordId, Partner>)
    ensures r.Keys == m.Keys
    ensures forall k :: k in m ==> r[k] == if k in ids then AppliedWrite(m[k], vals, today) else m[k]
  {
    map k | k in m :: if k in ids then AppliedWrite(m[k], vals, today) else m[k]
  }

  /** `_inverse_age` over the partners `ids`: None where `date()` raises for one of them;
      otherwise each of them inverted as `InverseWritten` says, the UUID of a nested write
      being `uuidFor` of the partner. */
  function InverseAll(m: map<RecordId, Partner>, ids: seq<RecordId>, today: CalendarDate, birthdateWritten: bool,
                      uuidFor: RecordId -> string): (r: Option<map<RecordId, Partner>>)
    requires forall t :: 0 <= t < |ids| ==> ids[t] in m
    ensures r.None? <==> exists t :: 0 <= t < |ids| && InvertedAge(m[ids[t]], today).None?
    ensures r.Some? ==> r.value.Keys == m.Keys && forall k :: k in m ==>
      r.value[k] == if k in ids then InverseWritten(m[k], today, birthdateWritten, uuidFor(k)).value else m[k]
  {
    if exists t :: 0 <= t < |ids| && InvertedAge(m[ids[t]], today).None? then None
    else
      assert forall k :: k in ids ==> InverseWritten(m[k], today, birthdateWritten, uuidFor(k)).Some?;
      Some(map k | k in m :: if k in ids then InverseWritten(m[k], today, birthdateWritten, uuidFor(k)).value else m[k])
  }

  /** The UUID pass runs unless `vals` carries a truthy 'uuid'. */
  predicate FillsUuids(vals: PatientWrite) {
    vals.uuid.None? || vals.uuid == Some("")
  }

  /** The stored part of a `write`: the patient-id pass when `vals` sets is_patient true, the
      UUID pass when `FillsUuids(vals)`, then `vals` stored on each of `ids`. */
  function StoredWrite(m: map<RecordId, Partner>, ids: seq<RecordId>, vals: PatientWrite, draw: nat -> SequenceDraw,
                       at: nat, uuidFor: RecordId -> string, today: CalendarDate): (r: map<RecordId, Partner>)
    requires forall t :: 0 <= t < |ids| ==> ids[t] in m
    ensures r.Keys == m.Keys && forall k :: k in m ==> r[k].id == m[k].id
    ensures vals.age.Some? ==> forall t :: 0 <= t < |ids| ==> r[ids[t]].age == vals.age.value
  {
    var withIds := if vals.isPatient == Some(true) then AssignIds(m, ids, 0, draw, at).0 else m;
    ApplyWrite(if FillsUuids(vals) then FillUuids(withIds, ids, uuidFor) else withIds, ids, vals, today)
  }

  /** The partners after `write(vals)`: the patient-id pass when 'is_patient' is truthy, the
      UUID pass when `FillsUuids(vals)`, then `vals` stored on each of `ids`, then, when 'age'
      is written, `_inverse_age` on them (its nested writes drawing `inverseUuidFor`); None where
      that raises ValueError, which rolls the write back. */
  function PartnersWritten(m: map<RecordId, Partner>, ids: seq<RecordId>, vals: PatientWrite, draw: nat -> SequenceDraw,
                           at: nat, uuidFor: RecordId -> string, today: CalendarDate, inverseUuidFor: RecordId -> string)
    : (r: Option<map<RecordId, Partner>>)
    requires forall t :: 0 <= t < |ids| ==> ids[t] in m
    ensures r.Some? ==> r.value.Keys == m.Keys
    ensures r.None? <==> vals.age.Some? && |ids| > 0 && vals.age.value > 0 && today.year - vals.age.value < 1
  {
    var stored := StoredWrite(m, ids, vals, draw, at, uuidFor, today);
    if vals.age.Some? then
      assert |ids| > 0 ==> stored[ids[0]].age == vals.age.value;
      InverseAll(stored, ids, today, vals.birthdate.Some?, inverseUuidFor)
    else Some(stored)
  }

  /** `write({'age': a})` for a positive `a` whose year is a date, on partners whose birthdate is
      not also written: each written partner is born on 1 January `a` years ago, so the age
      computed later from the stored birthdate is `a` again, and a partner left without a UUID
      receives the one of the nested write. */
  lemma AgeWriteRoundTrip(m: map<RecordId, Partner>, ids: seq<RecordId>, vals: PatientWrite, draw: nat -> SequenceDraw,
                          at: nat, uuidFor: RecordId -> string, today: CalendarDate, inverseUuidFor: RecordId -> string)
    requires forall t :: 0 <= t < |ids| ==> ids[t] in m
    requires vals.age.Some? && vals.age.value > 0 && today.year - vals.age.value >= 1 && vals.birthdate.None?
    ensures var r := PartnersWritten(m, ids, vals, draw, at, uuidFor, today, inverseUuidFor);
      && r.Some?
      && forall k :: k in ids ==>
           && r.value[k].birthdate == JanFirstYearsAgo(today, vals.age.value)
           && AgeOn(today, r.value[k].birthdate) == vals.age.value
           && ((vals.uuid.Some? && vals.uuid.value != "") || inverseUuidFor(k) != "" ==> r.value[k].uuid != "")
  {
    AgeOfJanFirstYearsAgo(today, vals.age.value);
  }

  /** The stored part of a write that does not set 'ref' itself keeps references unique. */
  lemma StoredWriteKeepsRefsUnique(m: map<RecordId, Partner>, ids: seq<RecordId>, vals: PatientWrite,
                                   draw: nat -> SequenceDraw, at: nat, uuidFor: RecordId -> string, today: CalendarDate)
    requires (forall t :: 0 <= t < |ids| ==> ids[t] in m) && UniqueRefs(m) && vals.ref.None?
    ensures UniqueRefs(StoredWrite(m, ids, vals, draw, at, uuidFor, today))
  {
    var withIds := if vals.isPatient == Some(true) then AssignIds(m, ids, 0, draw, at).0 else m;
    if vals.isPatient == Some(true) {
      AssignIdsKeepsUnique(m, ids, 0, draw, at);
    }
    var filled := if FillsUuids(vals) then FillUuids(withIds, ids, uuidFor) else withIds;
    assert forall k :: k in filled ==> filled[k].ref == withIds[k].ref;
    var stored := ApplyWrite(filled, ids, vals, today);
    SameRefsKeepUnique(withIds, stored);
  }

  /** A write that does not set 'ref' itself keeps references unique. */
  lemma WriteKeepsRefsUnique(m: map<RecordId, Partner>, ids: seq<RecordId>, vals: PatientWrite, draw: nat -> SequenceDraw,
                             at: nat, uuidFor: RecordId -> string, today: CalendarDate, inverseUuidFor: RecordId -> string)
    requires (forall t :: 0 <= t < |ids| ==> ids[t] in m) && UniqueRefs(m) && vals.ref.None?
    ensures var r := PartnersWritten(m, ids, vals, draw, at, uuidFor, today, inverseUuidFor);
      r.Some? ==> UniqueRefs(r.value)
  {
    var stored := StoredWrite(m, ids, vals, draw, at, uuidFor, today);
    StoredWriteKeepsRefsUnique(m, ids, vals, draw, at, uuidFor, today);
    var r := PartnersWritten(m, ids, vals, draw, at, uuidFor, today, inverseUuidFor);
    if vals.age.Some? {
      assert r == InverseAll(stored, ids, today, vals.birthdate.Some?, inverseUuidFor);
      InverseAllKeepsRefs(stored, ids, today, vals.birthdate.Some?, inverseUuidFor);
      if r.Some? {
        SameRefsKeepUnique(stored, r.value);
      }
    } else {
      assert r == Some(stored);
    }
  }

  /** Where one partner's year is out of range, the whole pass raises. */
  lemma InverseAllFails(m: map<RecordId, Partner>, ids: seq<RecordId>, today: CalendarDate, birthdateWritten: bool,
                        uuidFor: RecordId -> string, j: nat)
    requires (forall t :: 0 <= t < |ids| ==> ids[t] in m) && j < |ids| && InvertedAge(m[ids[j]], today).None?
    ensures InverseAll(m, ids, today, birthdateWritten, uuidFor).None?
  {
  }

  /** After the first `i` partners of `ids` are inverted, `p` holds the inverted ones and the
      rest as in `m`. */
  ghost predicate InvertedPrefix(m: map<RecordId, Partner>, p: map<RecordId, Partner>, ids: seq<RecordId>, i: nat,
                                 today: CalendarDate, birthdateWritten: bool, uuidFor: RecordId -> string)
    requires i <= |ids|
  {
    p.Keys == m.Keys &&
    (forall j :: 0 <= j < i ==> ids[j] in m && InvertedAge(m[ids[j]], today).Some?) &&
    forall k :: k in p ==>
      p[k] == if k in ids[..i] then InverseWritten(m[k], today, birthdateWritten, uuidFor(k)).value else m[k]
  }

  /** Inverting the next partner of `ids` extends the inverted prefix by one. */
  lemma InvertedPrefixStep(m: map<RecordId, Partner>, p: map<RecordId, Partner>, ids: seq<RecordId>, i: nat,
                           today: CalendarDate, birthdateWritten: bool, uuidFor: RecordId -> string)
    requires i < |ids| && ids[i] in m && InvertedPrefix(m, p, ids, i, today, birthdateWritten, uuidFor)
    requires InvertedAge(p[ids[i]], today).Some?
    ensures InvertedAge(m[ids[i]], today).Some?
    ensures InvertedPrefix(m, p[ids[i] := InverseWritten(p[ids[i]], today, birthdateWritten, uuidFor(ids[i])).value],
                           ids, i + 1, today, birthdateWritten, uuidFor)
  {
    var k := ids[i];
    assert ids[..i + 1] == ids[..i] + [k];
    if k in ids[..i] {
      InverseWrittenTwice(m[k], today, birthdateWritten, uuidFor(k));
    }
  }

  /** A map that inverts exactly the partners `ids` is the pass's result. */
  lemma InverseAllIs(m: map<RecordId, Partner>, ids: seq<RecordId>, today: CalendarDate, birthdateWritten: bool,
                     uuidFor: RecordId -> string, p: map<RecordId, Partner>)
    requires forall t :: 0 <= t < |ids| ==> ids[t] in m && InvertedAge(m[ids[t]], today).Some?
    requires p.Keys == m.Keys
    requires forall k :: k in m ==> p[k] == if k in ids then InverseWritten(m[k], today, birthdateWritten, uuidFor(k)).value else m[k]
    ensures InverseAll(m, ids, today, birthdateWritten, uuidFor) == Some(p)
  {
    var r := InverseAll(m, ids, today, birthdateWritten, uuidFor);
    assert r.Some?;
    assert r.value == p;
  }

  /** `_inverse_age` changes no reference. */
  lemma InverseAllKeepsRefs(m: map<RecordId, Partner>, ids: seq<RecordId>, today: CalendarDate, birthdateWritten: bool,
                            uuidFor: RecordId -> string)
    requires forall t :: 0 <= t < |ids| ==> ids[t] in m
    ensures var r := InverseAll(m, ids, today, birthdateWritten, uuidFor);
      r.Some? ==> r.value.Keys == m.Keys && forall k :: k in m ==> r.value[k].ref == m[k].ref
  {
    var r := InverseAll(m, ids, today, birthdateWritten, uuidFor);
    if r.Some? {
      forall k | k in m ensures r.value[k].ref == m[k].ref {
        if k in ids {
          var q := InverseWritten(m[k], today, birthdateWritten, uuidFor(k));
          assert q.Some? && q.value.ref == m[k].ref;
        }
      }
    }
  }

  /** References that stay as they were stay unique. */
  lemma SameRefsKeepUnique(a: map<RecordId, Partner>, b: map<RecordId, Partner>)
    requires UniqueRefs(a) && a.Keys == b.Keys && forall k :: k in a ==> b[k].ref == a[k].ref
    ensures UniqueRefs(b)
  {
  }

  /** A partner created without a reference and given a drawn id keeps references unique. */
  lemma CreateKeepsRefsUnique(m: map<RecordId, Partner>, id: RecordId, vals: PatientVals,
                              draw: nat -> SequenceDraw, at: nat, freshUuid: string, today: CalendarDate)
    requires UniqueRefs(m) && id !in m && DrawsId(vals)
    ensures UniqueRefs(m[id := NewPatient(id, vals, FreeRef(UsedRefs(m), draw, at, MaxIdDraws).0.GetOr(""), freshUuid, today)])
  {
    var ref := FreeRef(UsedRefs(m), draw, at, MaxIdDraws).0.GetOr("");
    FreeRefMeaning(UsedRefs(m), draw, at, MaxIdDraws);
    var m2 := m[id := NewPatient(id, vals, ref, freshUuid, today)];
    forall a, b | a in m2 && b in m2 && a != b && m2[a].ref != ""
      ensures m2[b].ref != m2[a].ref
    {
      if a == id {
        assert m[b].ref != "" ==> m[b].ref in UsedRefs(m);
      } else if b == id {
        assert m[a].ref in UsedRefs(m);
      }
    }
  }

  /** The radiology extension's share of the `res.partner` table, with the number of patient
      sequence values drawn so far. */
  class PatientRegistry {
    var partners: map<RecordId, Partner>
    var nextId: RecordId
    var drawn: nat

    ghost predicate Valid()
      reads this
    {
      forall k :: k in partners ==> k < nextId && partners[k].id == k
    }

    constructor ()
      ensures Valid() && partners == map[] && nextId == 1 && drawn == 0
    {
      partners := map[];
      nextId := 1;
      drawn := 0;
    }

    /** `_compute_age` over the partners `ids`. */
    method ComputeAge(ids: seq<RecordId>, today: CalendarDate)
      requires Valid() && forall i :: 0 <= i < |ids| ==> ids[i] in partners
      modifies this
      ensures Valid() && nextId == old(nextId) && drawn == old(drawn) && partners.Keys == old(partners).Keys
      ensures forall k :: k in partners ==>
        partners[k] == if k in ids then old(partners)[k].(age := AgeOn(today, old(partners)[k].birthdate)) else old(partners)[k]
    {
      for i := 0 to |ids|
        invariant Valid() && nextId == old(nextId) && drawn == old(drawn) && partners.Keys == old(partners).Keys
        invariant forall k :: k in partners ==>
          partners[k] == if k in ids[..i] then old(partners)[k].(age := AgeOn(today, old(partners)[k].birthdate)) else old(partners)[k]
      {
        var p := partners[ids[i]];
        var age := if p.birthdate.Some? then AgeOn(today, p.birthdate) else 0;
        partners := partners[ids[i] := p.(age := age)];
      }
      assert ids[..|ids|] == ids;
    }

    /** `_inverse_age` over the partners `ids`, the birthdate being assigned through `write`
        unless `birthdateWritten`: a year before 1 raises ValueError, and the transaction's
        rollback keeps every partner as it was. */
    method InverseAge(ids: seq<RecordId>, today: CalendarDate, birthdateWritten: bool, uuidFor: RecordId -> string)
      returns (r: Result<()>)
      requires Valid() && forall i :: 0 <= i < |ids| ==> ids[i] in partners
      modifies this
      ensures Valid() && nextId == old(nextId) && drawn == old(drawn) && partners.Keys == old(partners).Keys
      ensures r.Err? <==> InverseAll(old(partners), ids, today, birthdateWritten, uuidFor).None?
      ensures r.Err? ==> partners == old(partners) && r.className == "ValueError"
      ensures r.Ok? ==> InverseAll(old(partners), ids, today, birthdateWritten, uuidFor) == Some(partners)
    {
      var saved := partners;
      for i := 0 to |ids|
        invariant Valid() && nextId == old(nextId) && drawn == old(drawn)
        invariant InvertedPrefix(saved, partners, ids, i, today, birthdateWritten, uuidFor)
      {
        var k := ids[i];
        ghost var before := partners;
        r := InvertOne(k, today, birthdateWritten, uuidFor(k));
        if r.Err? {
          assert k !in ids[..i];
          InverseAllFails(saved, ids, today, birthdateWritten, uuidFor, i);
          partners := saved;
          return;
        }
        InvertedPrefixStep(saved, before, ids, i, today, birthdateWritten, uuidFor);
      }
      assert ids[..|ids|] == ids;
      InverseAllIs(saved, ids, today, birthdateWritten, uuidFor, partners);
      r := Ok(());
    }

    /** `_inverse_age` for the partner `k`; a nested `write` fills a missing UUID with `uuid`. */
    method InvertOne(k: RecordId, today: CalendarDate, birthdateWritten: bool, uuid: string) returns (r: Result<()>)
      requires Valid() && k in partners
      modifies this
      ensures Valid() && nextId == old(nextId) && drawn == old(drawn)
      ensures r.Err? <==> InvertedAge(old(partners)[k], today).None?
      ensures r.Err? ==> r.className == "ValueError" && partners == old(partners)
      ensures r.Ok? ==> partners == old(partners)[k := InverseWritten(old(partners)[k], today, birthdateWritten, uuid).value]
    {
      var p := partners[k];
      if p.age > 0 {
        var year := today.year - p.age;
        if year < 1 {
          return Err("ValueError", YearOutOfRange(year));
        }
        var born: CalendarDate := Date(year, 1, 1);
        p := p.(birthdate := Some(born));
        if !birthdateWritten && p.uuid == "" {
          p := p.(uuid := uuid);
        }
        partners := partners[k := p];
      }
      r := Ok(());
    }

    /** The patient-id retry loop against the references in use. */
    method DrawFreeRef(draw: nat -> SequenceDraw) returns (ref: Option<string>)
      modifies this
      ensures partners == old(partners) && nextId == old(nextId)
      ensures ref == FreeRef(UsedRefs(partners), draw, old(drawn), MaxIdDraws).0
      ensures drawn == FreeRef(UsedRefs(partners), draw, old(drawn), MaxIdDraws).1
    {
      ghost var used := UsedRefs(partners);
      ghost var goal := FreeRef(used, draw, drawn, MaxIdDraws);
      for i := 0 to MaxIdDraws
        invariant partners == old(partners) && nextId == old(nextId) && drawn == old(drawn) + i
        invariant goal == FreeRef(used, draw, drawn, MaxIdDraws - i)
      {
        var value := draw(drawn);
        drawn := drawn + 1;
        if !(value.Next? && value.value != "") {
          return None;
        }
        var taken := exists k :: k in partners && partners[k].ref == value.value;
        assert taken <==> value.value in used;
        if !taken {
          return Some(value.value);
        }
      }
      ref := None;
    }

    /** `create(vals)`: a fresh UUID unless one is given, a patient id as `FreeRef` draws it
        when `DrawsId(vals)`, and the new partner under the next id. */
    method Create(vals: PatientVals, draw: nat -> SequenceDraw, freshUuid: string, today: CalendarDate) returns (id: RecordId)
      requires Valid()
      modifies this
      ensures Valid() && id == old(nextId) && id !in old(partners) && nextId == old(nextId) + 1
      ensures var drawnRef := FreeRef(UsedRefs(old(partners)), draw, old(drawn), MaxIdDraws);
        && drawn == (if DrawsId(vals) then drawnRef.1 else old(drawn))
        && partners == old(partners)[id := NewPatient(id, vals, if DrawsId(vals) then drawnRef.0.GetOr("") else vals.ref, freshUuid, today)]
    {
      var ref := vals.ref;
      if DrawsId(vals) {
        var drawnRef := DrawFreeRef(draw);
        ref := drawnRef.GetOr("");
      }
      id := nextId;
      partners := partners[id := NewPatient(id, vals, ref, freshUuid, today)];
      nextId := nextId + 1;
    }

    /** `write`'s patient-id pass over the partners `ids` when 'is_patient' is truthy. */
    method AssignPatientIds(ids: seq<RecordId>, draw: nat -> SequenceDraw)
      requires Valid() && forall t :: 0 <= t < |ids| ==> ids[t] in partners
      modifies this
      ensures Valid() && nextId == old(nextId)
      ensures partners == AssignIds(old(partners), ids, 0, draw, old(drawn)).0
      ensures drawn == AssignIds(old(partners), ids, 0, draw, old(drawn)).1
    {
      for i := 0 to |ids|
        invariant Valid() && nextId == old(nextId) && partners.Keys == old(partners).Keys
        invariant AssignIds(old(partners), ids, 0, draw, old(drawn)) == AssignIds(partners, ids, i, draw, drawn)
      {
        var k := ids[i];
        if partners[k].ref == "" && !partners[k].isCompany {
          var ref := DrawFreeRef(draw);
          if ref.Some? {
            partners := partners[k := partners[k].(ref := ref.value)];
          }
        }
      }
    }

    /** The stored part of `write`, before `_inverse_age`. */
    method StoreWrite(ids: seq<RecordId>, vals: PatientWrite, draw: nat -> SequenceDraw, uuidFor: RecordId -> string,
                      today: CalendarDate)
      requires Valid() && forall t :: 0 <= t < |ids| ==> ids[t] in partners
      modifies this
      ensures Valid() && nextId == old(nextId)
      ensures partners == StoredWrite(old(partners), ids, vals, draw, old(drawn), uuidFor, today)
      ensures drawn == (if vals.isPatient == Some(true) then AssignIds(old(partners), ids, 0, draw, old(drawn)).1 else old(drawn))
    {
      if vals.isPatient == Some(true) {
        AssignPatientIds(ids, draw);
      }
      if FillsUuids(vals) {
        partners := FillUuids(partners, ids, uuidFor);
      }
      partners := ApplyWrite(partners, ids, vals, today);
    }

    /** `write(vals)` on the partners `ids`: the patient-id pass when 'is_patient' is truthy,
        the UUID pass unless `vals` carries a truthy 'uuid', then the parent write with
        `_inverse_age` when 'age' is written; its ValueError rolls the partners back, while the
        sequence values already drawn stay drawn. */
    method Write(ids: seq<RecordId>, vals: PatientWrite, draw: nat -> SequenceDraw, uuidFor: RecordId -> string,
                 today: CalendarDate, inverseUuidFor: RecordId -> string) returns (r: Result<()>)
      requires Valid() && forall t :: 0 <= t < |ids| ==> ids[t] in partners
      modifies this
      ensures Valid() && nextId == old(nextId)
      ensures var w := PartnersWritten(old(partners), ids, vals, draw, old(drawn), uuidFor, today, inverseUuidFor);
        && (r.Err? <==> w.None?)
        && (r.Err? ==> r.className == "ValueError" && partners == old(partners))
        && (r.Ok? ==> partners == w.value)
      ensures drawn == (if vals.isPatient == Some(true) then AssignIds(old(partners), ids, 0, draw, old(drawn)).1 else old(drawn))
    {
      var saved := partners;
      StoreWrite(ids, vals, draw, uuidFor, today);
      r := Ok(());
      if vals.age.Some? {
        r := InverseAge(ids, today, vals.birthdate.Some?, inverseUuidFor);
        if r.Err? {
          partners := saved;
        }
      }
    }
  }
}
