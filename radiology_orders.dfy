/** `orthanc.order`: the radiology report of one ordered examination. A report starts in
    draft, is signed, then completed; signed, completed and cancelled reports refuse content
    edits, only draft reports can be deleted, and only signed or completed ones printed. */
module RadiologyOrders {
  import opened Wrappers
  import opened Domain
  import opened Worklist

  const DefaultName := "New"
  /** The fields a finalized report refuses to change. */
  const RestrictedFields: set<string> :=
    {"findings", "impression", "recommendation", "product_id", "sale_order_id", "radiologist_id", "study_uuid"}
  const CompleteRefused := "Only signed reports can be marked as completed."
  const PrintRefused := "The report is not signed yet. Click on 'Sign Report' to proceed."
  const UnlinkRefused := "You cannot delete an order that is not in Draft state. Please cancel it instead."

  /** The selection key stored for a state. */
  function StateKey(s: ReportState): string {
    match s
    case Draft => "draft"
    case Sign => "sign"
    case Complete => "complete"
    case Cancel => "cancel"
  }

  /** The state a selection key names, None for a key the selection does not declare. */
  function StateOfKey(k: string): (r: Option<ReportState>)
    ensures r.Some? <==> k in {"draft", "sign", "complete", "cancel"}
    ensures r.Some? ==> StateKey(r.value) == k
  {
    if k == "draft" then Some(Draft)
    else if k == "sign" then Some(Sign)
    else if k == "complete" then Some(Complete)
    else if k == "cancel" then Some(Cancel)
    else None
  }

  /** Every state's key names that state again. */
  lemma StateKeyRoundTrip(s: ReportState)
    ensures StateOfKey(StateKey(s)) == Some(s)
  {
  }

  /** The selection label of a state. */
  function StateLabel(s: ReportState): string {
    match s
    case Draft => "Draft"
    case Sign => "Signed"
    case Complete => "Completed"
    case Cancel => "Cancelled"
  }

  function LockMessage(s: ReportState): string {
    "You cannot modify a radiology order in '" + StateLabel(s) +
    "' state. Please reset to draft first (if allowed)."
  }

  /** The ORM's ValueError for a selection value that is not declared. */
  function WrongValueMessage(k: string): string {
    "Wrong value for orthanc.order.state: '" + k + "'"
  }

  /** The values of one `write(vals)`: each stored field the model follows is Some exactly when
      `vals` has its key, and `otherKeys` are the remaining keys of `vals` (such as
      'message_follower_ids'). */
  datatype OrderWrite = OrderWrite(
    otherKeys: set<string>,
    state: Option<string>,
    signedAt: Option<Option<Time>>,
    findings: Option<string>,
    impression: Option<string>,
    recommendation: Option<string>,
    radiologistId: Option<Option<RecordId>>,
    productId: Option<Option<RecordId>>,
    saleOrderId: Option<Option<RecordId>>,
    studyUuid: Option<string>,
    cancelReason: Option<string>)

  /** A write of only the given fields. */
  function NoValues(): OrderWrite {
    OrderWrite({}, None, None, None, None, None, None, None, None, None, None)
  }

  /** The keys of `vals`. */
  function Keys(v: OrderWrite): set<string> {
    v.otherKeys
    + (if v.state.Some? then {"state"} else {})
    + (if v.signedAt.Some? then {"signed_at"} else {})
    + (if v.findings.Some? then {"findings"} else {})
    + (if v.impression.Some? then {"impression"} else {})
    + (if v.recommendation.Some? then {"recommendation"} else {})
    + (if v.radiologistId.Some? then {"radiologist_id"} else {})
    + (if v.productId.Some? then {"product_id"} else {})
    + (if v.saleOrderId.Some? then {"sale_order_id"} else {})
    + (if v.studyUuid.Some? then {"study_uuid"} else {})
    + (if v.cancelReason.Some? then {"cancel_reason"} else {})
  }

  /** `action_sign_report`'s values. */
  function SignVals(now: Time): OrderWrite {
    NoValues().(state := Some("sign"), signedAt := Some(Some(now)))
  }

  /** `action_reset_draft`'s values. */
  function ResetVals(): OrderWrite {
    NoValues().(state := Some("draft"), signedAt := Some(None))
  }

  /** `action_complete`'s values. */
  function CompleteVals(): OrderWrite {
    NoValues().(state := Some("complete"))
  }

  /** A content edit: new findings only. */
  function FindingsVals(text: string): OrderWrite {
    NoValues().(findings := Some(text))
  }

  predicate AllStored(m: map<RecordId, RadiologyOrder>, ids: seq<RecordId>) {
    forall i :: 0 <= i < |ids| ==> ids[i] in m
  }

  /** The edit lock: one of the records is signed, completed or cancelled, `vals` has neither
      'state' nor 'message_follower_ids', and it writes a restricted field. */
  predicate Locked(m: map<RecordId, RadiologyOrder>, ids: seq<RecordId>, keys: set<string>)
    requires AllStored(m, ids)
  {
    && (exists i :: 0 <= i < |ids| && m[ids[i]].state != Draft)
    && "state" !in keys && "message_follower_ids" !in keys
    && keys * RestrictedFields != {}
  }

  /** What `write(vals)` on the records `ids` raises, if anything: the lock's UserError (naming
      the state of the first record), else the ORM's ValueError for an undeclared state key.
      Writing to no record does nothing. */
  function WriteCheck(m: map<RecordId, RadiologyOrder>, ids: seq<RecordId>, v: OrderWrite): (r: Result<()>)
    requires AllStored(m, ids)
    ensures ids == [] ==> r.Ok?
    ensures ids != [] && Locked(m, ids, Keys(v)) ==> r == Err("UserError", LockMessage(m[ids[0]].state))
    ensures r.Err? && r.className != "UserError" ==>
      v.state.Some? && StateOfKey(v.state.value).None? && r == Err("ValueError", WrongValueMessage(v.state.value))
    ensures r.Ok? <==> ids == [] || (!Locked(m, ids, Keys(v)) && (v.state.None? || StateOfKey(v.state.value).Some?))
  {
    if ids == [] then Ok(())
    else if Locked(m, ids, Keys(v)) then Err("UserError", LockMessage(m[ids[0]].state))
    else if v.state.Some? && StateOfKey(v.state.value).None? then Err("ValueError", WrongValueMessage(v.state.value))
    else Ok(())
  }

  /** One record after an accepted write. */
  function Applied(o: RadiologyOrder, v: OrderWrite): (p: RadiologyOrder)
    ensures p.id == o.id && p.name == o.name
    ensures v.state.Some? && StateOfKey(v.state.value).Some? ==> p.state == StateOfKey(v.state.value).value
    ensures v.state.None? ==> p.state == o.state
  {
    o.(state := if v.state.Some? && StateOfKey(v.state.value).Some? then StateOfKey(v.state.value).value else o.state,
       signedAt := v.signedAt.GetOr(o.signedAt),
       findings := v.findings.GetOr(o.findings),
       impression := v.impression.GetOr(o.impression),
       recommendation := v.recommendation.GetOr(o.recommendation),
       radiologistId := v.radiologistId.GetOr(o.radiologistId),
       productId := v.productId.GetOr(o.productId),
       saleOrderId := v.saleOrderId.GetOr(o.saleOrderId),
       studyUuid := v.studyUuid.GetOr(o.studyUuid),
       cancelReason := v.cancelReason.GetOr(o.cancelReason))
  }

  /** The table after an accepted write to the records `ids`. */
  function Written(m: map<RecordId, RadiologyOrder>, ids: seq<RecordId>, v: OrderWrite): (r: map<RecordId, RadiologyOrder>)
    ensures r.Keys == m.Keys
    ensures forall k :: k in m && k !in ids ==> r[k] == m[k]
    ensures forall k :: k in m && k in ids ==> r[k] == Applied(m[k], v)
  {
    map k | k in m :: if k in ids then Applied(m[k], v) else m[k]
  }

  /** A write that sets the state is never refused by the lock, whatever the records' states. */
  lemma StateWriteNeverLocked(m: map<RecordId, RadiologyOrder>, ids: seq<RecordId>, v: OrderWrite)
    requires AllStored(m, ids) && v.state.Some?
    ensures WriteCheck(m, ids, v).Err? ==> WriteCheck(m, ids, v) == Err("ValueError", WrongValueMessage(v.state.value))
    ensures StateOfKey(v.state.value).Some? ==> WriteCheck(m, ids, v) == Ok(())
  {
  }

  /** Draft records accept every write with a declared state, restricted fields included. */
  lemma DraftsAreEditable(m: map<RecordId, RadiologyOrder>, ids: seq<RecordId>, v: OrderWrite)
    requires AllStored(m, ids) && forall i :: 0 <= i < |ids| ==> m[ids[i]].state == Draft
    requires v.state.None? || StateOfKey(v.state.value).Some?
    ensures WriteCheck(m, ids, v) == Ok(())
  {
  }

  /** Signing locks the report's content; resetting it to draft unlocks it again. */
  lemma SignLocksResetUnlocks(m: map<RecordId, RadiologyOrder>, id: RecordId, now: Time, text: string)
    requires id in m
    ensures var signed := Written(m, [id], SignVals(now));
      WriteCheck(signed, [id], FindingsVals(text)) == Err("UserError", LockMessage(Sign))
    ensures var reset := Written(Written(m, [id], SignVals(now)), [id], ResetVals());
      WriteCheck(reset, [id], FindingsVals(text)) == Ok(())
  {
    var signed := Written(m, [id], SignVals(now));
    assert signed[id].state == Sign;
    assert "findings" in Keys(FindingsVals(text)) * RestrictedFields;
    assert Locked(signed, [id], Keys(FindingsVals(text)));
    var reset := Written(signed, [id], ResetVals());
    assert reset[id].state == Draft;
  }

  /** `action_complete`'s guard. */
  function CompleteCheck(o: RadiologyOrder): (r: Result<()>)
    ensures r.Ok? <==> o.state == Sign
    ensures r.Err? ==> r == Err("UserError", CompleteRefused)
  {
    if o.state != Sign then Err("UserError", CompleteRefused) else Ok(())
  }

  /** Only a signed report completes: signing then completing succeeds from any state, and a
      report reset to draft cannot be completed. */
  lemma CompleteNeedsSignature(m: map<RecordId, RadiologyOrder>, id: RecordId, now: Time)
    requires id in m
    ensures CompleteCheck(Written(m, [id], SignVals(now))[id]).Ok?
    ensures CompleteCheck(Written(m, [id], ResetVals())[id]).Err?
    ensures Written(Written(m, [id], SignVals(now)), [id], CompleteVals())[id].state == Complete
  {
  }

  /** A report can be printed once signed or completed. */
  predicate Printable(o: RadiologyOrder) {
    o.state == Sign || o.state == Complete
  }

  /** The table without the records `ids`. */
  function Removed(m: map<RecordId, RadiologyOrder>, ids: seq<RecordId>): (r: map<RecordId, RadiologyOrder>)
    ensures r.Keys == m.Keys - set i | 0 <= i < |ids| :: ids[i]
    ensures forall k :: k in r ==> r[k] == m[k]
  {
    map k | k in m && k !in ids :: m[k]
  }

  /** A signed report can be neither deleted nor edited, but it prints. */
  lemma SignedReportIsFinal(m: map<RecordId, RadiologyOrder>, id: RecordId, now: Time)
    requires id in m
    ensures var o := Written(m, [id], SignVals(now))[id];
      o.state != Draft && Printable(o) && o.signedAt == Some(now)
  {
  }

  /** The values `create` fills in: name from the order sequence, a fresh study UUID, draft. */
  datatype OrderVals = OrderVals(name: Option<string>, saleOrderId: Option<RecordId>, productId: Option<RecordId>, studyUuid: string)

  /** The name `create` stores: a name other than 'New' is kept; otherwise the next value of the
      order sequence, or 'New' when the sequence gives none; a failing sequence raises. */
  function OrderName(name: Option<string>, draw: SequenceDraw): (r: Result<string>)
    ensures name.Some? && name.value != DefaultName ==> r == Ok(name.value)
    ensures r.Err? <==> (name.None? || name.value == DefaultName) && draw.DrawFails?
    ensures (name.None? || name.value == DefaultName) && draw.Next? && draw.value != "" ==> r == Ok(draw.value)
    ensures (name.None? || name.value == DefaultName) && !draw.DrawFails? && !(draw.Next? && draw.value != "") ==>
      r == Ok(DefaultName)
  {
    if name.Some? && name.value != DefaultName then Ok(name.value)
    else
      match draw
      case Next(value) => Ok(if value != "" then value else DefaultName)
      case NoValue => Ok(DefaultName)
      case DrawFails(message) => Err("Exception", message)
  }

  /** The record `create` stores under `id`. */
  function NewOrder(id: RecordId, name: string, vals: OrderVals, freshUuid: string): (o: RadiologyOrder)
    ensures o.id == id && o.name == name && o.state == Draft && o.signedAt.None?
    ensures o.saleOrderId == vals.saleOrderId && o.productId == vals.productId
    ensures vals.studyUuid != "" ==> o.studyUuid == vals.studyUuid
    ensures vals.studyUuid == "" ==> o.studyUuid == freshUuid
  {
    RadiologyOrder(id, name, vals.saleOrderId, vals.productId,
                   if vals.studyUuid != "" then vals.studyUuid else freshUuid,
                   "", "", "", None, None, Draft, "")
  }

  /** Is there an orthanc order for this sale order and product? */
  predicate HasOrderFor(m: map<RecordId, RadiologyOrder>, saleId: RecordId, productId: RecordId) {
    exists k :: k in m && m[k].saleOrderId == Some(saleId) && m[k].productId == Some(productId)
  }

  /** Every record is stored under its own id, and ids below `nextId` are the ones drawn. */
  ghost predicate IdsBelow(m: map<RecordId, RadiologyOrder>, nextId: RecordId) {
    forall k :: k in m ==> k < nextId && m[k].id == k
  }

  /** The `orthanc.order` table. */
  class OrderTable {
    var orders: map<RecordId, RadiologyOrder>
    var nextId: RecordId

    ghost predicate Valid()
      reads this
    {
      IdsBelow(orders, nextId)
    }

    constructor ()
      ensures Valid() && orders == map[] && nextId == 1
    {
      orders := map[];
      nextId := 1;
    }

    /** `create(vals)`: the name and study UUID filled in, a draft record under the next id;
        a failing order sequence raises before anything is stored. */
    method Create(vals: OrderVals, draw: SequenceDraw, freshUuid: string) returns (r: Result<RecordId>)
      requires Valid()
      modifies this
      ensures Valid()
      ensures r.Err? <==> OrderName(vals.name, draw).Err?
      ensures r.Err? ==> r == Err("Exception", draw.message) && orders == old(orders) && nextId == old(nextId)
      ensures r.Ok? ==> r.value == old(nextId) && r.value !in old(orders) && nextId == old(nextId) + 1
      ensures r.Ok? ==> orders == old(orders)[r.value := NewOrder(r.value, OrderName(vals.name, draw).value, vals, freshUuid)]
    {
      var name := OrderName(vals.name, draw);
      if name.Err? {
        return Err(name.className, name.message);
      }
      var id := nextId;
      orders := orders[id := NewOrder(id, name.value, vals, freshUuid)];
      nextId := nextId + 1;
      r := Ok(id);
    }

    /** `write(vals)` on the records `ids`: refused as `WriteCheck` says, else applied to each. */
    method Write(ids: seq<RecordId>, v: OrderWrite) returns (r: Result<()>)
      requires Valid() && AllStored(orders, ids)
      modifies this
      ensures Valid() && nextId == old(nextId)
      ensures r == WriteCheck(old(orders), ids, v)
      ensures orders == if r.Ok? then Written(old(orders), ids, v) else old(orders)
    {
      r := WriteCheck(orders, ids, v);
      if r.Ok? {
        orders := Written(orders, ids, v);
      }
    }

    /** `action_sign_report`: signed now, from any state. */
    method ActionSignReport(id: RecordId, now: Time)
      requires Valid() && id in orders
      modifies this
      ensures Valid() && nextId == old(nextId)
      ensures orders == old(orders)[id := old(orders)[id].(state := Sign, signedAt := Some(now))]
    {
      StateWriteNeverLocked(orders, [id], SignVals(now));
      var _ := Write([id], SignVals(now));
    }

    /** `action_reset_draft`: back to draft with the signature cleared, from any state. */
    method ActionResetDraft(id: RecordId)
      requires Valid() && id in orders
      modifies this
      ensures Valid() && nextId == old(nextId)
      ensures orders == old(orders)[id := old(orders)[id].(state := Draft, signedAt := None)]
    {
      StateWriteNeverLocked(orders, [id], ResetVals());
      var _ := Write([id], ResetVals());
    }

    /** `action_complete`: completes a signed report; any other state raises and nothing changes. */
    method ActionComplete(id: RecordId) returns (r: Result<()>)
      requires Valid() && id in orders
      modifies this
      ensures Valid() && nextId == old(nextId)
      ensures r == CompleteCheck(old(orders)[id])
      ensures orders == if r.Ok? then old(orders)[id := old(orders)[id].(state := Complete)] else old(orders)
    {
      if orders[id].state != Sign {
        return Err("UserError", CompleteRefused);
      }
      StateWriteNeverLocked(orders, [id], CompleteVals());
      r := Write([id], CompleteVals());
    }

    /** `action_print_report`'s guard: raises unless every record is signed or completed
        (the report itself is not modelled). */
    method ActionPrintReport(ids: seq<RecordId>) returns (r: Result<()>)
      requires AllStored(orders, ids)
      ensures r.Ok? <==> forall i :: 0 <= i < |ids| ==> Printable(orders[ids[i]])
      ensures r.Err? ==> r == Err("UserError", PrintRefused)
    {
      for i := 0 to |ids|
        invariant forall j :: 0 <= j < i ==> Printable(orders[ids[j]])
      {
        var state := orders[ids[i]].state;
        if state != Sign && state != Complete {
          return Err("UserError", PrintRefused);
        }
      }
      r := Ok(());
    }

    /** `unlink`: deletes the records when every one of them is a draft, else raises and keeps all. */
    method Unlink(ids: seq<RecordId>) returns (r: Result<()>)
      requires Valid() && AllStored(orders, ids)
      modifies this
      ensures Valid() && nextId == old(nextId)
      ensures r.Ok? <==> forall i :: 0 <= i < |ids| ==> old(orders)[ids[i]].state == Draft
      ensures r.Err? ==> r == Err("UserError", UnlinkRefused)
      ensures orders == if r.Ok? then Removed(old(orders), ids) else old(orders)
    {
      for i := 0 to |ids|
        invariant forall j :: 0 <= j < i ==> orders[ids[j]].state == Draft
      {
        if orders[ids[i]].state != Draft {
          return Err("UserError", UnlinkRefused);
        }
      }
      orders := Removed(orders, ids);
      r := Ok(());
    }

    /** The orders of this sale order and product; `action_confirm`'s search, `limit=1`. */
    method FindFor(saleId: RecordId, productId: RecordId) returns (found: bool)
      ensures found <==> HasOrderFor(orders, saleId, productId)
    {
      found := exists k :: k in orders && orders[k].saleOrderId == Some(saleId) && orders[k].productId == Some(productId);
    }

    /** `search([('sale_order_id', '=', saleId), ('state', '!=', key)])`: the distinct ids of the
        records linked to the sale order whose state key differs from `key`; a key the selection
        does not declare excludes nothing. */
    method SearchLinked(saleId: RecordId, key: string) returns (ids: seq<RecordId>)
      ensures forall a, b :: 0 <= a < b < |ids| ==> ids[a] != ids[b]
      ensures forall k :: k in ids <==> k in orders && orders[k].saleOrderId == Some(saleId) && StateKey(orders[k].state) != key
    {
      var rest := set k | k in orders && orders[k].saleOrderId == Some(saleId) && StateKey(orders[k].state) != key;
      ids := [];
      while rest != {}
        invariant forall a, b :: 0 <= a < b < |ids| ==> ids[a] != ids[b]
        invariant forall k :: k in rest ==> k !in ids
        invariant forall k :: k in ids || k in rest <==> k in orders && orders[k].saleOrderId == Some(saleId) && StateKey(orders[k].state) != key
        decreases |rest|
      {
        var k :| k in rest;
        ids := ids + [k];
        rest := rest - {k};
      }
    }

    /** `_send_to_orthanc`: the worklist entry of the order `id`. */
    method SendToOrthanc(id: RecordId, folder: WorklistFolder, w: World, env: WorklistEnv) returns (r: Result<()>)
      requires id in orders
      modifies folder
      ensures folder.directories == old(folder.directories)
      ensures r.Err? <==> WorklistDir(env.dirSetting) !in folder.directories
      ensures r.Err? ==> r == Err("Exception", MissingDirMessage(WorklistDir(env.dirSetting))) && folder.files == old(folder.files)
      ensures r.Ok? ==> folder.files == old(folder.files)[WorklistFor(orders[id], w, env).path := WorklistFor(orders[id], w, env)]
    {
      r := folder.CreateWorklist(orders[id], w, env);
    }

    /** Puts back the records a failed action had changed: the transaction's rollback, which does
        not give back the record ids already drawn. */
    method Restore(saved: map<RecordId, RadiologyOrder>)
      requires IdsBelow(saved, nextId)
      modifies this
      ensures Valid() && orders == saved && nextId == old(nextId)
    {
      orders := saved;
    }
  }
}
