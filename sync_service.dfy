/** The laboratory sync service (`openelis.sync.service`): the guards of the lab-test and
    test-order entry points, line selection and order-line building, and `_call_openelis_api`,
    which turns one delivery outcome into a returned dict or an exception and files every
    failure in the event queue. */
module SyncService {
  import opened Wrappers
  import opened Text
  import opened Seqs
  import opened Domain
  import opened EventQueue

  const LabTestEndpoint := "/rest/odoo/test"
  const TestOrderEndpoint := "/rest/odoo/test-order"
  const Unconfigured := "API URL not configured"

  /** The `{'status': ..., 'message': ...}` dict the two sync entry points return. */
  datatype Reply = Reply(status: string, message: string)

  /** How `_call_openelis_api` ends: returning a dict (its 'status' and 'message' keys),
      returning a parsed JSON value that is not a dict (by its Python class), or raising. */
  datatype ApiResult =
    | Returned(status: Option<string>, message: Option<string>)
    | ReturnedValue(typeName: string)
    | Raises(exception: string, text: string)

  predicate HasScheme(u: string) {
    StartsWith(u, "http://") || StartsWith(u, "https://")
  }

  /** A configured URL with its scheme: kept when it has one, else "http://" in front of it
      with its leading slashes dropped. */
  function NormalizeUrl(apiUrl: string): (r: string)
    ensures HasScheme(r)
    ensures HasScheme(apiUrl) ==> r == apiUrl
    ensures !HasScheme(apiUrl) ==>
      && StartsWith(r, "http://")
      && |r| - 7 <= |apiUrl|
      && apiUrl[|apiUrl| - (|r| - 7)..] == r[7..]
      && (|r| == 7 || r[7] != '/')
      && forall i :: 0 <= i < |apiUrl| - (|r| - 7) ==> apiUrl[i] == '/'
  {
    if HasScheme(apiUrl) then apiUrl
    else
      var rest := LStrip(apiUrl, '/');
      var r := "http://" + rest;
      assert r[7..] == rest;
      r
  }

  /** The POST target for `endpoint`: none without a configured URL, else the normalised URL
      with its trailing slashes dropped, then the endpoint. */
  function RequestUrl(apiUrl: string, endpoint: string): (r: Option<string>)
    ensures r.None? <==> apiUrl == ""
    ensures r.Some? ==> |r.value| >= |endpoint| && r.value[|r.value| - |endpoint|..] == endpoint
    ensures r.Some? ==>
      var base := r.value[..|r.value| - |endpoint|];
      var u := NormalizeUrl(apiUrl);
      && (base == [] || base[|base| - 1] != '/')
      && StartsWith(u, base)
      && forall i :: |base| <= i < |u| ==> u[i] == '/'
  {
    if apiUrl == "" then None
    else
      var base := RStrip(NormalizeUrl(apiUrl), '/');
      var url := base + endpoint;
      assert url[..|url| - |endpoint|] == base;
      assert url[|url| - |endpoint|..] == endpoint;
      Some(url)
  }

  /** `int(payload['sale_order_id'])` when the payload has that key and it denotes a record id. */
  function PayloadSaleOrderId(p: Payload): Option<RecordId> {
    if p.TestOrderPayload? then
      match ParseInt(p.saleOrderId)
      case Some(n) => if n > 0 then Some(n as RecordId) else None
      case None => None
    else None
  }

  /** The sale order a non-200 reply is filed under: the context's, else the payload's id, else
      the order found by the payload's name, else none. */
  function StatusSaleOrder(ctx: Option<RecordId>, p: Payload, w: World): Option<RecordId> {
    if ctx.Some? then ctx
    else if PayloadSaleOrderId(p).Some? then PayloadSaleOrderId(p)
    else if p.TestOrderPayload? && p.saleOrderName != "" && p.saleOrderName in w.orderIdByName then
      Some(w.orderIdByName[p.saleOrderName])
    else None
  }

  /** The sale order an exception is filed under: the context's, else (the key being present)
      the record the payload's id denotes, and no name search; a payload without the key has no name either. */
  function RaisedSaleOrder(ctx: Option<RecordId>, p: Payload): Option<RecordId> {
    if ctx.Some? then ctx
    else if p.TestOrderPayload? then PayloadSaleOrderId(p)
    else None
  }

  function HttpErrorType(code: int): string {
    "HTTP " + IntToString(code)
  }

  /** The error message of a non-200 reply: the JSON 'message', else the text, else "HTTP <code>"
      (which a JSON value that is not an object leaves in place, its `.get` raising first). */
  function FailureText(code: int, body: Body): string {
    match body
    case Json(_, message) => message.GetOr(HttpErrorType(code))
    case JsonValue(_) => HttpErrorType(code)
    case Text(text) => if text != "" then text else HttpErrorType(code)
  }

  /** The `error_type` filed for an exception: the name of the clause that caught it, or its class. */
  function ErrorTypeOf(e: RequestError): string {
    match e
    case ConnectionError(_) => "ConnectionError"
    case Timeout(_) => "Timeout"
    case OtherRequestError(className, _) => className
    case Unexpected(className, _) => className
  }

  /** What leaves `_call_openelis_api` after an exception from the request. */
  function RaisedResult(e: RequestError): (r: ApiResult)
    ensures r.Raises?
    ensures !e.Unexpected? ==> r.exception == "UserError" && StartsWith(r.text, "Failed to connect to OpenELIS API: ") != e.Timeout?
    ensures e.Unexpected? ==> r == Raises(e.className, e.message)
    ensures e.ConnectionError? || e.OtherRequestError? ==> r.text == "Failed to connect to OpenELIS API: " + e.message
    ensures e.Timeout? ==> r.text == "Request to OpenELIS API timed out: " + e.message
  {
    match e
    case ConnectionError(m) => Raises("UserError", "Failed to connect to OpenELIS API: " + m)
    case Timeout(m) => Raises("UserError", "Request to OpenELIS API timed out: " + m)
    case OtherRequestError(_, m) => Raises("UserError", "Failed to connect to OpenELIS API: " + m)
    case Unexpected(className, m) => Raises(className, m)
  }

  /** What one call decides: the POST target, how the call ends, and the failure it files. */
  datatype ApiStep = ApiStep(target: Option<string>, result: ApiResult, admission: Option<Admission>)

  /** `_call_openelis_api(payload, endpoint, event_type)` given the outcome of its POST. */
  function ApiDecision(cfg: Config, ctx: Option<RecordId>, w: World, p: Payload, kind: EventType,
                       endpoint: string, outcome: Outcome): (step: ApiStep)
    ensures step.target == RequestUrl(cfg.apiUrl, endpoint)
    ensures cfg.apiUrl == "" ==> step.result == Returned(Some("error"), Some(Unconfigured)) && step.admission.None?
    ensures step.admission.Some? <==> cfg.apiUrl != "" && !(outcome.Response? && outcome.code == 200)
    ensures step.admission.Some? ==>
      var a := step.admission.value;
      && a.eventType == kind && a.payload == p && a.partnerId.None? && a.partnerRef == ""
      && (outcome.Response? && !outcome.body.JsonValue? ==>
            a.errorType == HttpErrorType(outcome.code) && a.errorMessage == FailureText(outcome.code, outcome.body)
            && a.saleOrderId == StatusSaleOrder(ctx, p, w)
            && step.result == Returned(Some("error"), Some(a.errorMessage)))
      && (outcome.Response? && outcome.body.JsonValue? ==>
            a.errorType == "AttributeError" && a.errorMessage == NoGetError(outcome.body.typeName).message
            && a.saleOrderId == RaisedSaleOrder(ctx, p) && step.result == Raises("AttributeError", a.errorMessage))
      && (outcome.Raised? ==>
            a.errorType == ErrorTypeOf(outcome.error) && a.errorMessage == outcome.error.message
            && a.saleOrderId == RaisedSaleOrder(ctx, p) && step.result.Raises?)
    ensures cfg.apiUrl != "" && outcome.Response? && outcome.code == 200 ==>
      && (outcome.body.Json? ==> step.result == Returned(outcome.body.status, outcome.body.message))
      && (outcome.body.JsonValue? ==> step.result == ReturnedValue(outcome.body.typeName))
      && (outcome.body.Text? ==> step.result.Returned? && step.result.status == Some("success"))
  {
    var target := RequestUrl(cfg.apiUrl, endpoint);
    if target.None? then ApiStep(None, Returned(Some("error"), Some(Unconfigured)), None)
    else
      match outcome
      case Response(code, body) =>
        if code == 200 then
          var result := match body
            case Json(status, message) => Returned(status, message)
            case JsonValue(typeName) => ReturnedValue(typeName)
            case Text(_) => Returned(Some("success"), Some("Test order processed successfully"));
          ApiStep(target, result, None)
        else if body.JsonValue? then
          var e := NoGetError(body.typeName);
          ApiStep(target, RaisedResult(e),
                  Some(Admission(kind, p, e.message, ErrorTypeOf(e), None, "", RaisedSaleOrder(ctx, p))))
        else
          var message := FailureText(code, body);
          ApiStep(target, Returned(Some("error"), Some(message)),
                  Some(Admission(kind, p, message, HttpErrorType(code), None, "", StatusSaleOrder(ctx, p, w))))
      case Raised(e) =>
        ApiStep(target, RaisedResult(e),
                Some(Admission(kind, p, e.message, ErrorTypeOf(e), None, "", RaisedSaleOrder(ctx, p))))
  }

  /** `_call_openelis_api` on a store value: the store after the call, and how the call ends. */
  ghost function CallApiSpec(s: Store, cfg: Config, ctx: Option<RecordId>, w: World, p: Payload, kind: EventType,
                             endpoint: string, outcome: Outcome, now: Time): (Store, ApiResult)
  {
    var step := ApiDecision(cfg, ctx, w, p, kind, endpoint, outcome);
    (AdmitIf(s, step.admission, now), step.result)
  }

  /** The dict a sync entry point makes of the call's result, a raised exception included:
      success exactly when the call returned status 'success'. A returned value that is not a
      dict makes `response.get` raise AttributeError, which the entry point reports. */
  function ReplyOf(r: ApiResult): (reply: Reply)
    ensures reply.status == "success" <==> r.Returned? && r.status == Some("success")
    ensures reply.status == "success" || reply.status == "error"
    ensures r.Raises? ==> reply.message == r.text
    ensures r.ReturnedValue? ==> reply.message == NoGetError(r.typeName).message
    ensures r.Returned? ==>
      reply.message == r.message.GetOr(if r.status == Some("success") then "Synced successfully" else "Unknown error")
  {
    match r
    case Returned(status, message) =>
      if status == Some("success") then Reply("success", message.GetOr("Synced successfully"))
      else Reply("error", message.GetOr("Unknown error"))
    case ReturnedValue(typeName) => Reply("error", NoGetError(typeName).message)
    case Raises(_, message) => Reply("error", message)
  }

  /** A reply of 200 whose JSON is not an object files nothing, yet the entry point reports an
      error: the AttributeError of `response.get`. The same reply with another code is filed as
      that AttributeError and raises it. */
  lemma NonObjectReplyReported(cfg: Config, ctx: Option<RecordId>, w: World, p: Payload, kind: EventType,
                               endpoint: string, code: int, typeName: string)
    requires cfg.apiUrl != ""
    ensures var step := ApiDecision(cfg, ctx, w, p, kind, endpoint, Response(code, JsonValue(typeName)));
      var message := "'" + typeName + "' object has no attribute 'get'";
      && ReplyOf(step.result) == Reply("error", message)
      && (code == 200 <==> step.admission.None?)
      && (code != 200 ==> step.result == Raises("AttributeError", message) && step.admission.value.errorType == "AttributeError")
  {
  }

  predicate NonEmpty(s: string) {
    s != ""
  }

  /** `test_uuids`: for a panel, the non-empty uuids of its components in component order; the
      second computation the code falls back to is the same filter, so it adds nothing. */
  function PanelTestUuids(product: Product): (r: seq<string>)
    ensures !product.isPanel ==> r == []
    ensures forall u :: u in r <==> product.isPanel && u in product.panelTestUuids && u != ""
  {
    if product.isPanel then Filter(product.panelTestUuids, NonEmpty) else []
  }

  function LabTestPayloadOf(product: Product): Payload {
    LabTestPayload(product.id, product.isPanel, PanelTestUuids(product))
  }

  /** The early returns of `sync_lab_test_to_openelis`; None when the call goes ahead. */
  function LabTestGuard(cfg: Config, product: Option<Product>): (r: Option<Reply>)
    ensures r.None? <==> product.Some? && cfg.syncEnabled && (product.value.isLabTest || product.value.isPanel)
    ensures product.None? ==> r == Some(Reply("error", "No product provided"))
    ensures r.Some? && product.Some? ==> r.value.status == "skipped"
  {
    if product.None? then Some(Reply("error", "No product provided"))
    else if !cfg.syncEnabled then Some(Reply("skipped", "OpenELIS sync is disabled"))
    else if !product.value.isLabTest && !product.value.isPanel then Some(Reply("skipped", "Product is not a lab test or panel"))
    else None
  }

  /** `sync_lab_test_to_openelis` on a store value. */
  ghost function SyncLabTestSpec(s: Store, cfg: Config, ctx: Option<RecordId>, w: World,
                                 product: Option<Product>, outcome: Outcome, now: Time): (Store, Reply)
  {
    match LabTestGuard(cfg, product)
    case Some(reply) => (s, reply)
    case None =>
      var (t, r) := CallApiSpec(s, cfg, ctx, w, LabTestPayloadOf(product.value), LabTest, LabTestEndpoint, outcome, now);
      (t, ReplyOf(r))
  }

  /** A lab-test sync stops before any call, leaving the queue alone, exactly in the guarded
      cases; otherwise it reports success exactly when the call returned status 'success'. */
  lemma SyncLabTestOutcomes(s: Store, cfg: Config, ctx: Option<RecordId>, w: World,
                            product: Option<Product>, outcome: Outcome, now: Time)
    ensures var (t, reply) := SyncLabTestSpec(s, cfg, ctx, w, product, outcome, now);
      && (LabTestGuard(cfg, product).Some? ==> t == s && reply.status != "success")
      && (LabTestGuard(cfg, product).None? ==>
            var step := ApiDecision(cfg, ctx, w, LabTestPayloadOf(product.value), LabTest, LabTestEndpoint, outcome);
            (reply.status == "success" <==> step.result.Returned? && step.result.status == Some("success"))
            && (t != s ==> step.admission.Some?))
  {
  }

  predicate IsLabOrPanelLine(l: OrderLine) {
    l.product.Some? && (l.product.value.isLabTest || l.product.value.isPanel)
  }

  /** The line filter of `_get_lab_test_order_lines`: no section or note line, a product, and that product a lab test. */
  predicate IsLabTestLine(l: OrderLine) {
    l.kind == ProductLine && l.product.Some? && l.product.value.isLabTest
  }

  /** One `order_lines` entry: the product id as text, its name, 'Panel' or 'Test', the line description. */
  function LineData(l: OrderLine): OrderLineData
    requires l.product.Some?
  {
    var p := l.product.value;
    OrderLineData(IntToString(p.id), p.name, if p.isPanel then "Panel" else "Test", l.description)
  }

  function OrderLinesData(lines: seq<OrderLine>): (r: seq<OrderLineData>)
    requires forall l :: l in lines ==> l.product.Some?
    ensures |r| == |lines|
  {
    seq(|lines|, i requires 0 <= i < |lines| => LineData(lines[i]))
  }

  /** Each entry names its line's product: its id reads back from `product_uuid`, and the type
      is 'Panel' exactly for panels. */
  lemma {:induction false} OrderLinesDataDescribeLines(lines: seq<OrderLine>)
    requires forall l :: l in lines ==> l.product.Some?
    ensures var r := OrderLinesData(lines);
      forall i :: 0 <= i < |lines| ==>
        && ParseInt(r[i].productUuid) == Some(lines[i].product.value.id)
        && (r[i].productType == "Panel" <==> lines[i].product.value.isPanel)
        && r[i].productName == lines[i].product.value.name
        && r[i].comment == lines[i].description
  {
    var r := OrderLinesData(lines);
    forall i | 0 <= i < |lines|
      ensures ParseInt(r[i].productUuid) == Some(lines[i].product.value.id)
    {
      ParseIntOfIntToString(lines[i].product.value.id);
    }
  }

  function TestOrderPayloadOf(o: SaleOrder, lines: seq<OrderLine>): Payload
    requires forall l :: l in lines ==> l.product.Some?
  {
    TestOrderPayload(IntToString(o.id), o.name, OrderLinesData(lines))
  }

  /** A payload built from a sale order names it: both fallbacks recover its id from the payload. */
  lemma PayloadNamesSaleOrder(o: SaleOrder, lines: seq<OrderLine>, w: World)
    requires forall l :: l in lines ==> l.product.Some?
    ensures PayloadSaleOrderId(TestOrderPayloadOf(o, lines)) == Some(o.id)
    ensures StatusSaleOrder(None, TestOrderPayloadOf(o, lines), w) == Some(o.id)
    ensures RaisedSaleOrder(None, TestOrderPayloadOf(o, lines)) == Some(o.id)
  {
    ParseIntOfIntToString(o.id);
  }

  /** The early returns of `sync_test_order_to_openelis`, given its lab-or-panel lines. */
  function TestOrderGuard(cfg: Config, o: SaleOrder, lines: seq<OrderLine>): (r: Option<Reply>)
    ensures r.None? <==> cfg.syncEnabled && o.partner.Some? && lines != []
    ensures r.Some? ==> r.value.status == "skipped"
  {
    if !cfg.syncEnabled then Some(Reply("skipped", "OpenELIS sync is disabled"))
    else if o.partner.None? then Some(Reply("skipped", "No customer/patient"))
    else if lines == [] then Some(Reply("skipped", "No lab test products in order"))
    else None
  }

  /** `sync_test_order_to_openelis` on a store value. */
  ghost function SyncTestOrderSpec(s: Store, cfg: Config, ctx: Option<RecordId>, w: World,
                                   o: SaleOrder, outcome: Outcome, now: Time): (Store, Reply)
  {
    var lines := Filter(o.lines, IsLabOrPanelLine);
    match TestOrderGuard(cfg, o, lines)
    case Some(reply) => (s, reply)
    case None =>
      var (t, r) := CallApiSpec(s, cfg, ctx, w, TestOrderPayloadOf(o, lines), TestOrder, TestOrderEndpoint, outcome, now);
      (t, ReplyOf(r))
  }

  /** A test-order sync sends one entry per lab-test or panel line of the order, and a failing
      call files the event under the order itself when no context order is given. */
  lemma TestOrderFiledUnderOrder(s: Store, cfg: Config, w: World, o: SaleOrder, outcome: Outcome)
    requires TestOrderGuard(cfg, o, Filter(o.lines, IsLabOrPanelLine)).None?
    ensures var lines := Filter(o.lines, IsLabOrPanelLine);
      var step := ApiDecision(cfg, None, w, TestOrderPayloadOf(o, lines), TestOrder, TestOrderEndpoint, outcome);
      && |TestOrderPayloadOf(o, lines).orderLines| == |lines|
      && (step.admission.Some? ==> step.admission.value.saleOrderId == Some(o.id))
  {
    PayloadNamesSaleOrder(o, Filter(o.lines, IsLabOrPanelLine), w);
  }

  /** Every line `_get_lab_test_order_lines` keeps is one the test-order sync sends; a line
      whose product is a panel and not a lab test is sent but not kept. */
  lemma LabTestLinesAreSent(lines: seq<OrderLine>)
    ensures forall l :: l in Filter(lines, IsLabTestLine) ==> l in Filter(lines, IsLabOrPanelLine)
  {
  }

  /** The loop at lines 104-108. */
  method SelectLabOrPanelLines(lines: seq<OrderLine>) returns (r: seq<OrderLine>)
    ensures r == Filter(lines, IsLabOrPanelLine)
  {
    r := [];
    var i := 0;
    while i < |lines|
      invariant 0 <= i <= |lines|
      invariant r == Filter(lines[..i], IsLabOrPanelLine)
    {
      FilterStep(lines, i, IsLabOrPanelLine);
      if IsLabOrPanelLine(lines[i]) {
        r := r + [lines[i]];
      }
      i := i + 1;
    }
    assert lines[..|lines|] == lines;
  }

  /** `_get_lab_test_order_lines`. */
  method GetLabTestOrderLines(o: SaleOrder) returns (r: seq<OrderLine>)
    ensures r == Filter(o.lines, IsLabTestLine)
  {
    r := [];
    var i := 0;
    while i < |o.lines|
      invariant 0 <= i <= |o.lines|
      invariant r == Filter(o.lines[..i], IsLabTestLine)
    {
      FilterStep(o.lines, i, IsLabTestLine);
      var line := o.lines[i];
      i := i + 1;
      if line.kind == LineSection || line.kind == LineNote {
        continue;
      }
      if line.product.Some? && line.product.value.isLabTest {
        r := r + [line];
      }
    }
    assert o.lines[..|o.lines|] == o.lines;
  }

  /** The loop at lines 131-140 that appends one entry per selected line. */
  method BuildOrderLines(lines: seq<OrderLine>) returns (r: seq<OrderLineData>)
    requires forall l :: l in lines ==> l.product.Some?
    ensures r == OrderLinesData(lines)
  {
    r := [];
    var i := 0;
    while i < |lines|
      invariant 0 <= i <= |lines|
      invariant |r| == i && forall k :: 0 <= k < i ==> r[k] == LineData(lines[k])
    {
      r := r + [LineData(lines[i])];
      i := i + 1;
    }
  }

  /** `_call_openelis_api`: returns or raises as the outcome dictates, filing every failure. */
  method CallApi(store: EventStore, cfg: Config, ctx: Option<RecordId>, w: World, p: Payload, kind: EventType,
                 endpoint: string, outcome: Outcome, now: Time) returns (r: ApiResult)
    requires store.Valid()
    modifies store
    ensures store.Valid()
    ensures (store.State(), r) == CallApiSpec(old(store.State()), cfg, ctx, w, p, kind, endpoint, outcome, now)
  {
    var url := RequestUrl(cfg.apiUrl, endpoint);
    if url.None? {
      return Returned(Some("error"), Some(Unconfigured));
    }
    match outcome
    case Response(code, body) =>
      if code == 200 {
        match body
        case Json(status, message) => r := Returned(status, message);
        case JsonValue(typeName) => r := ReturnedValue(typeName);
        case Text(_) => r := Returned(Some("success"), Some("Test order processed successfully"));
      } else if body.JsonValue? {
        var e := NoGetError(body.typeName);
        var _ := store.CreateOrUpdate(Admission(kind, p, e.message, ErrorTypeOf(e), None, "", RaisedSaleOrder(ctx, p)), now);
        r := RaisedResult(e);
      } else {
        var message := FailureText(code, body);
        var _ := store.CreateOrUpdate(Admission(kind, p, message, HttpErrorType(code), None, "", StatusSaleOrder(ctx, p, w)), now);
        r := Returned(Some("error"), Some(message));
      }
    case Raised(e) =>
      var _ := store.CreateOrUpdate(Admission(kind, p, e.message, ErrorTypeOf(e), None, "", RaisedSaleOrder(ctx, p)), now);
      r := RaisedResult(e);
  }

  /** `sync_lab_test_to_openelis`. */
  method SyncLabTest(store: EventStore, cfg: Config, ctx: Option<RecordId>, w: World,
                     product: Option<Product>, outcome: Outcome, now: Time) returns (reply: Reply)
    requires store.Valid()
    modifies store
    ensures store.Valid()
    ensures (store.State(), reply) == SyncLabTestSpec(old(store.State()), cfg, ctx, w, product, outcome, now)
  {
    var guard := LabTestGuard(cfg, product);
    if guard.Some? {
      return guard.value;
    }
    var r := CallApi(store, cfg, ctx, w, LabTestPayloadOf(product.value), LabTest, LabTestEndpoint, outcome, now);
    reply := ReplyOf(r);
  }

  /** `sync_test_order_to_openelis`. */
  method SyncTestOrder(store: EventStore, cfg: Config, ctx: Option<RecordId>, w: World,
                       o: SaleOrder, outcome: Outcome, now: Time) returns (reply: Reply)
    requires store.Valid()
    modifies store
    ensures store.Valid()
    ensures (store.State(), reply) == SyncTestOrderSpec(old(store.State()), cfg, ctx, w, o, outcome, now)
  {
    var lines := SelectLabOrPanelLines(o.lines);
    var guard := TestOrderGuard(cfg, o, lines);
    if guard.Some? {
      return guard.value;
    }
    var orderLines := BuildOrderLines(lines);
    var payload := TestOrderPayload(IntToString(o.id), o.name, orderLines);
    var r := CallApi(store, cfg, ctx, w, payload, TestOrder, TestOrderEndpoint, outcome, now);
    reply := ReplyOf(r);
  }
}
