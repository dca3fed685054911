/** The records of the clinical system that the laboratory sync and the radiology extension
    read (partners, products, sale orders, radiology orders), the sync settings, the JSON
    bodies sent to the laboratory system (only the fields the model reasons about), and the
    abstract result of one POST to it. */
module Domain {
  import opened Wrappers
  import opened Dates

  /** Database ids of stored records are positive; 0 and None are both "no record". */
  type RecordId = n: nat | n > 0 witness 1

  /** Time as whole minutes on one clock (`fields.Datetime.now()`). */
  type Time = int

  /** A `res.partner` row with the fields both extensions read; "" stands for an unset text
      field, and `age` is the value the age field holds at that moment. */
  datatype Partner = Partner(
    id: RecordId,
    name: string,
    ref: string,
    uuid: string,
    birthdate: Option<CalendarDate>,
    age: int,
    gender: string,
    customerRank: int,
    isCompany: bool,
    isPatient: bool)

  /** One `ir.sequence.next_by_code` call: a value, no value (unknown sequence), or an exception. */
  datatype SequenceDraw = Next(value: string) | NoValue | DrawFails(message: string)

  /** A product; `panelTestUuids` holds the `uuid` of each panel component, "" when unset, and
      `isRadiology` is the radiology extension's flag. */
  datatype Product = Product(
    id: RecordId,
    name: string,
    isLabTest: bool,
    isPanel: bool,
    panelTestUuids: seq<string>,
    isRadiology: bool)

  /** `display_type` of a sale order line. */
  datatype LineKind = ProductLine | LineSection | LineNote

  datatype OrderLine = OrderLine(kind: LineKind, product: Option<Product>, description: string)

  /** A sale order; `providerName` and `salespersonName` are the names of the linked provider
      and salesperson when those are set, and `radiologyPriority` is the priority key ("" when
      unset). */
  datatype SaleOrder = SaleOrder(
    id: RecordId,
    name: string,
    partner: Option<RecordId>,
    lines: seq<OrderLine>,
    providerName: Option<string>,
    salespersonName: Option<string>,
    radiologyPriority: string)

  /** The states an `orthanc.order` can hold: the keys 'draft', 'sign', 'complete', 'cancel'. */
  datatype ReportState = Draft | Sign | Complete | Cancel

  /** An `orthanc.order` row; "" stands for an unset text field. */
  datatype RadiologyOrder = RadiologyOrder(
    id: RecordId,
    name: string,
    saleOrderId: Option<RecordId>,
    productId: Option<RecordId>,
    studyUuid: string,
    findings: string,
    impression: string,
    recommendation: string,
    radiologistId: Option<RecordId>,
    signedAt: Option<Time>,
    state: ReportState,
    cancelReason: string)

  /** The three `ir.config_parameter` values the sync reads. */
  datatype Config = Config(syncEnabled: bool, patientSyncEnabled: bool, apiUrl: string)

  /** What a sync attempt can look up: stored records by id, and `sale.order` name search. */
  datatype World = World(
    partners: map<RecordId, Partner>,
    saleOrders: map<RecordId, SaleOrder>,
    products: map<RecordId, Product>,
    orderIdByName: map<string, RecordId>)

  /** One order line as sent in a test order (`quantity` is not modelled). */
  datatype OrderLineData = OrderLineData(productUuid: string, productName: string, productType: string, comment: string)

  /** The JSON bodies, reduced to the keys the queue and the retries read. */
  datatype Payload =
    | PatientPayload(ref: string, birthdate: string)
    | TestOrderPayload(saleOrderId: string, saleOrderName: string, orderLines: seq<OrderLineData>)
    | LabTestPayload(productId: nat, isPanel: bool, testUuids: seq<string>)

  /** A response body: a parsed JSON object (its 'status' and 'message' keys), a parsed JSON
      value that is not an object (by its Python class: 'list', 'str', 'int', 'float', 'bool'
      or 'NoneType'), or text that is not JSON. */
  datatype Body = Json(status: Option<string>, message: Option<string>) | JsonValue(typeName: string) | Text(text: string)

  /** The exception `requests.post` can raise, by the `except` clause that catches it. */
  datatype RequestError =
    | ConnectionError(message: string)
    | Timeout(message: string)
    | OtherRequestError(className: string, message: string)
    | Unexpected(className: string, message: string)

  /** The AttributeError that calling `.get` on a parsed JSON value that is not an object raises. */
  function NoGetError(typeName: string): (e: RequestError)
    ensures e.Unexpected? && e.className == "AttributeError"
  {
    Unexpected("AttributeError", "'" + typeName + "' object has no attribute 'get'")
  }

  /** What one POST to the laboratory system produced. */
  datatype Outcome = Response(code: int, body: Body) | Raised(error: RequestError)
}
