/** The radiology extension of `sale.order`: confirming a sale order creates one radiology
    report per radiology product that has none yet and publishes its worklist entry; cancelling
    it cancels the linked reports. */
module RadiologySales {
  import opened Wrappers
  import opened Domain
  import opened Worklist
  import opened RadiologyOrders

  /** A line whose product carries the radiology flag; a line without a product has none. */
  predicate IsRadiologyLine(line: OrderLine) {
    line.product.Some? && line.product.value.isRadiology
  }

  /** No two reports share a sale order and a product. */
  ghost predicate NoDuplicates(m: map<RecordId, RadiologyOrder>) {
    forall a, b :: a in m && b in m && a != b && m[a].saleOrderId.Some? && m[a].productId.Some? ==>
      !(m[b].saleOrderId == m[a].saleOrderId && m[b].productId == m[a].productId)
  }

  /** What a confirmation works against: the records the worklist reads, the existing worklist
      directories, and the oracles for the order sequence and for fresh UUIDs, indexed by the
      id the new report will receive. */
  datatype ConfirmEnv = ConfirmEnv(
    w: World,
    env: WorklistEnv,
    directories: set<string>,
    draw: RecordId -> SequenceDraw,
    uuid: RecordId -> string)

  /** The report table, the worklist files and whether an exception has been raised. */
  datatype Confirmation = Confirmation(
    orders: map<RecordId, RadiologyOrder>,
    nextId: RecordId,
    files: map<string, WorklistFile>,
    status: Result<()>)

  ghost predicate Grows(c: Confirmation, d: Confirmation) {
    && c.nextId <= d.nextId
    && forall k :: k in c.orders ==> k in d.orders && d.orders[k] == c.orders[k]
  }

  /** The report `action_confirm` creates for a radiology line under the id `id`. */
  function LineOrder(id: RecordId, name: string, saleId: RecordId, line: OrderLine, e: ConfirmEnv): RadiologyOrder
    requires IsRadiologyLine(line)
  {
    NewOrder(id, name, OrderVals(None, Some(saleId), Some(line.product.value.id), ""), e.uuid(id))
  }

  /** The report created for a radiology line that has none, then its worklist entry: a
      failing sequence raises before anything is stored, a missing directory raises after the
      report was created. */
  function CreateReport(c: Confirmation, saleId: RecordId, line: OrderLine, e: ConfirmEnv): (d: Confirmation)
    requires IdsBelow(c.orders, c.nextId) && IsRadiologyLine(line)
    ensures IdsBelow(d.orders, d.nextId) && Grows(c, d)
  {
    var name := OrderName(None, e.draw(c.nextId));
    if name.Err? then c.(status := Err(name.className, name.message))
    else
      var o := LineOrder(c.nextId, name.value, saleId, line, e);
      var dirFound := WorklistDir(e.env.dirSetting) in e.directories;
      Confirmation(c.orders[c.nextId := o], c.nextId + 1,
                   if dirFound then Published(c.files, o, e) else c.files,
                   if dirFound then Ok(()) else Err("Exception", MissingDirMessage(WorklistDir(e.env.dirSetting))))
  }

  /** The worklist files after `_send_to_orthanc` wrote the entry of `o`. */
  function Published(files: map<string, WorklistFile>, o: RadiologyOrder, e: ConfirmEnv): map<string, WorklistFile> {
    var entry := WorklistFor(o, e.w, e.env);
    files[entry.path := entry]
  }

  /** One line of `action_confirm`: nothing once an exception has been raised, for a line that
      is not radiology, or when a report for the sale order and product exists; otherwise
      `CreateReport`. */
  function ConfirmLine(c: Confirmation, saleId: RecordId, line: OrderLine, e: ConfirmEnv): (d: Confirmation)
    requires IdsBelow(c.orders, c.nextId)
    ensures IdsBelow(d.orders, d.nextId) && Grows(c, d)
    ensures d.orders.Keys <= c.orders.Keys + {c.nextId}
  {
    if c.status.Err? || !IsRadiologyLine(line) || HasOrderFor(c.orders, saleId, line.product.value.id) then c
    else CreateReport(c, saleId, line, e)
  }

  /** A report created for a line is a draft linked to the sale order and the line's product. */
  lemma CreatedReportFacts(c: Confirmation, saleId: RecordId, line: OrderLine, e: ConfirmEnv)
    requires IdsBelow(c.orders, c.nextId) && IsRadiologyLine(line)
    ensures var d := CreateReport(c, saleId, line, e);
      && (d.status.Ok? ==> c.nextId in d.orders)
      && (c.nextId !in d.orders ==> d.orders == c.orders)
      && (c.nextId in d.orders ==>
            && d.orders == c.orders[c.nextId := d.orders[c.nextId]]
            && d.orders[c.nextId].state == Draft && d.orders[c.nextId].saleOrderId == Some(saleId)
            && d.orders[c.nextId].productId == Some(line.product.value.id))
  {
  }

  /** After one line that raised nothing, a radiology line has its report. */
  lemma ConfirmLineCovers(c: Confirmation, saleId: RecordId, line: OrderLine, e: ConfirmEnv)
    requires IdsBelow(c.orders, c.nextId)
    ensures var d := ConfirmLine(c, saleId, line, e);
      d.status.Ok? && IsRadiologyLine(line) ==> HasOrderFor(d.orders, saleId, line.product.value.id)
  {
    if c.status.Ok? && IsRadiologyLine(line) && !HasOrderFor(c.orders, saleId, line.product.value.id) {
      CreatedReportFacts(c, saleId, line, e);
    }
  }

  /** A report is created only for a radiology line that had none, as a draft linked to the
      sale order and the line's product. */
  lemma ConfirmLineCreates(c: Confirmation, saleId: RecordId, line: OrderLine, e: ConfirmEnv)
    requires IdsBelow(c.orders, c.nextId)
    ensures var d := ConfirmLine(c, saleId, line, e);
      c.nextId in d.orders && c.nextId !in c.orders ==>
        && c.status.Ok? && IsRadiologyLine(line) && !HasOrderFor(c.orders, saleId, line.product.value.id)
        && d.orders == c.orders[c.nextId := d.orders[c.nextId]]
        && d.orders[c.nextId].state == Draft && d.orders[c.nextId].saleOrderId == Some(saleId)
        && d.orders[c.nextId].productId == Some(line.product.value.id)
  {
    if c.status.Ok? && IsRadiologyLine(line) && !HasOrderFor(c.orders, saleId, line.product.value.id) {
      CreatedReportFacts(c, saleId, line, e);
    }
  }

  /** One line never creates a second report for a sale order and product. */
  lemma ConfirmLineKeepsNoDuplicates(c: Confirmation, saleId: RecordId, line: OrderLine, e: ConfirmEnv)
    requires IdsBelow(c.orders, c.nextId) && NoDuplicates(c.orders)
    ensures NoDuplicates(ConfirmLine(c, saleId, line, e).orders)
  {
    var d := ConfirmLine(c, saleId, line, e);
    ConfirmLineCreates(c, saleId, line, e);
    if c.nextId in d.orders && c.nextId !in c.orders {
      var pid := line.product.value.id;
      forall a, b | a in d.orders && b in d.orders && a != b && d.orders[a].saleOrderId.Some? && d.orders[a].productId.Some?
        ensures !(d.orders[b].saleOrderId == d.orders[a].saleOrderId && d.orders[b].productId == d.orders[a].productId)
      {
        if a == c.nextId {
          assert b in c.orders && d.orders[b] == c.orders[b];
        } else if b == c.nextId {
          assert a in c.orders && d.orders[a] == c.orders[a];
        }
      }
    }
  }

  /** The lines `j..` of one sale order, in order. */
  function ConfirmLines(c: Confirmation, sale: SaleOrder, j: nat, e: ConfirmEnv): (d: Confirmation)
    requires IdsBelow(c.orders, c.nextId) && j <= |sale.lines|
    ensures IdsBelow(d.orders, d.nextId) && Grows(c, d)
    decreases |sale.lines| - j
  {
    if j == |sale.lines| then c
    else ConfirmLines(ConfirmLine(c, sale.id, sale.lines[j], e), sale, j + 1, e)
  }

  /** The sale orders `i..`, in order. */
  function ConfirmSales(c: Confirmation, sales: seq<SaleOrder>, i: nat, e: ConfirmEnv): (d: Confirmation)
    requires IdsBelow(c.orders, c.nextId) && i <= |sales|
    ensures IdsBelow(d.orders, d.nextId) && Grows(c, d)
    decreases |sales| - i
  {
    if i == |sales| then c
    else ConfirmSales(ConfirmLines(c, sales[i], 0, e), sales, i + 1, e)
  }

  /** Once an exception has been raised nothing further happens. */
  lemma {:induction false} LinesAfterError(c: Confirmation, sale: SaleOrder, j: nat, e: ConfirmEnv)
    requires IdsBelow(c.orders, c.nextId) && j <= |sale.lines| && c.status.Err?
    ensures ConfirmLines(c, sale, j, e) == c
    decreases |sale.lines| - j
  {
    if j < |sale.lines| {
      LinesAfterError(c, sale, j + 1, e);
    }
  }

  lemma {:induction false} SalesAfterError(c: Confirmation, sales: seq<SaleOrder>, i: nat, e: ConfirmEnv)
    requires IdsBelow(c.orders, c.nextId) && i <= |sales| && c.status.Err?
    ensures ConfirmSales(c, sales, i, e) == c
    decreases |sales| - i
  {
    if i < |sales| {
      LinesAfterError(c, sales[i], 0, e);
      SalesAfterError(c, sales, i + 1, e);
    }
  }

  /** Confirming never creates a second report for the same sale order and product. */
  lemma {:induction false} LinesKeepNoDuplicates(c: Confirmation, sale: SaleOrder, j: nat, e: ConfirmEnv)
    requires IdsBelow(c.orders, c.nextId) && j <= |sale.lines| && NoDuplicates(c.orders)
    ensures NoDuplicates(ConfirmLines(c, sale, j, e).orders)
    decreases |sale.lines| - j
  {
    if j < |sale.lines| {
      ConfirmLineKeepsNoDuplicates(c, sale.id, sale.lines[j], e);
      LinesKeepNoDuplicates(ConfirmLine(c, sale.id, sale.lines[j], e), sale, j + 1, e);
    }
  }

  lemma {:induction false} ConfirmKeepsNoDuplicates(c: Confirmation, sales: seq<SaleOrder>, i: nat, e: ConfirmEnv)
    requires IdsBelow(c.orders, c.nextId) && i <= |sales| && NoDuplicates(c.orders)
    ensures NoDuplicates(ConfirmSales(c, sales, i, e).orders)
    decreases |sales| - i
  {
    if i < |sales| {
      LinesKeepNoDuplicates(c, sales[i], 0, e);
      ConfirmKeepsNoDuplicates(ConfirmLines(c, sales[i], 0, e), sales, i + 1, e);
    }
  }

  /** Every radiology line of the sale order from `j` on has a report. */
  ghost predicate LinesCovered(m: map<RecordId, RadiologyOrder>, sale: SaleOrder, j: nat) {
    forall l :: j <= l < |sale.lines| && IsRadiologyLine(sale.lines[l]) ==>
      HasOrderFor(m, sale.id, sale.lines[l].product.value.id)
  }

  /** Every radiology line of the sale orders from `i` on has a report. */
  ghost predicate SalesCovered(m: map<RecordId, RadiologyOrder>, sales: seq<SaleOrder>, i: nat) {
    forall s :: i <= s < |sales| ==> LinesCovered(m, sales[s], 0)
  }

  lemma GrowsKeepsOrderFor(c: Confirmation, d: Confirmation, saleId: RecordId, productId: RecordId)
    requires Grows(c, d) && HasOrderFor(c.orders, saleId, productId)
    ensures HasOrderFor(d.orders, saleId, productId)
  {
    var k :| k in c.orders && c.orders[k].saleOrderId == Some(saleId) && c.orders[k].productId == Some(productId);
    assert k in d.orders && d.orders[k] == c.orders[k];
  }

  lemma GrowsKeepsLinesCovered(c: Confirmation, d: Confirmation, sale: SaleOrder, j: nat)
    requires Grows(c, d) && LinesCovered(c.orders, sale, j)
    ensures LinesCovered(d.orders, sale, j)
  {
    forall l | j <= l < |sale.lines| && IsRadiologyLine(sale.lines[l])
      ensures HasOrderFor(d.orders, sale.id, sale.lines[l].product.value.id)
    {
      GrowsKeepsOrderFor(c, d, sale.id, sale.lines[l].product.value.id);
    }
  }

  lemma GrowsKeepsSalesCovered(c: Confirmation, d: Confirmation, sales: seq<SaleOrder>, i: nat)
    requires Grows(c, d) && SalesCovered(c.orders, sales, i)
    ensures SalesCovered(d.orders, sales, i)
  {
    forall s | i <= s < |sales|
      ensures LinesCovered(d.orders, sales[s], 0)
    {
      GrowsKeepsLinesCovered(c, d, sales[s], 0);
    }
  }

  lemma GrowsTrans(c: Confirmation, d: Confirmation, f: Confirmation)
    requires Grows(c, d) && Grows(d, f)
    ensures Grows(c, f)
  {
  }

  /** A confirmation that raises nothing leaves a report for every radiology line. */
  lemma {:induction false} LinesCover(c: Confirmation, sale: SaleOrder, j: nat, e: ConfirmEnv)
    requires IdsBelow(c.orders, c.nextId) && j <= |sale.lines|
    ensures var d := ConfirmLines(c, sale, j, e); d.status.Ok? ==> LinesCovered(d.orders, sale, j)
    decreases |sale.lines| - j
  {
    if j < |sale.lines| {
      var c1 := ConfirmLine(c, sale.id, sale.lines[j], e);
      ConfirmLineCovers(c, sale.id, sale.lines[j], e);
      var d := ConfirmLines(c1, sale, j + 1, e);
      LinesCover(c1, sale, j + 1, e);
      if d.status.Ok? {
        if c1.status.Err? {
          LinesAfterError(c1, sale, j + 1, e);
        }
        if IsRadiologyLine(sale.lines[j]) {
          GrowsKeepsOrderFor(c1, d, sale.id, sale.lines[j].product.value.id);
        }
      }
    }
  }

  lemma {:induction false} ConfirmCovers(c: Confirmation, sales: seq<SaleOrder>, i: nat, e: ConfirmEnv)
    requires IdsBelow(c.orders, c.nextId) && i <= |sales|
    ensures var d := ConfirmSales(c, sales, i, e); d.status.Ok? ==> SalesCovered(d.orders, sales, i)
    decreases |sales| - i
  {
    if i < |sales| {
      var c1 := ConfirmLines(c, sales[i], 0, e);
      var d := ConfirmSales(c1, sales, i + 1, e);
      ConfirmCovers(c1, sales, i + 1, e);
      LinesCover(c, sales[i], 0, e);
      if d.status.Ok? {
        if c1.status.Err? {
          SalesAfterError(c1, sales, i + 1, e);
        }
        GrowsKeepsLinesCovered(c1, d, sales[i], 0);
      }
    }
  }

  /** Lines whose reports all exist change nothing: no report is created and no worklist
      entry is written again. */
  lemma {:induction false} CoveredLinesUnchanged(c: Confirmation, sale: SaleOrder, j: nat, e: ConfirmEnv)
    requires IdsBelow(c.orders, c.nextId) && j <= |sale.lines| && LinesCovered(c.orders, sale, j)
    ensures ConfirmLines(c, sale, j, e) == c
    decreases |sale.lines| - j
  {
    if j < |sale.lines| {
      CoveredLinesUnchanged(c, sale, j + 1, e);
    }
  }

  lemma {:induction false} CoveredSalesUnchanged(c: Confirmation, sales: seq<SaleOrder>, i: nat, e: ConfirmEnv)
    requires IdsBelow(c.orders, c.nextId) && i <= |sales| && SalesCovered(c.orders, sales, i)
    ensures ConfirmSales(c, sales, i, e) == c
    decreases |sales| - i
  {
    if i < |sales| {
      CoveredLinesUnchanged(c, sales[i], 0, e);
      CoveredSalesUnchanged(c, sales, i + 1, e);
    }
  }

  /** Confirming the same sale orders a second time, after a first confirmation that raised
      nothing, creates no report and writes no worklist entry. */
  lemma ConfirmTwice(c: Confirmation, sales: seq<SaleOrder>, e: ConfirmEnv)
    requires IdsBelow(c.orders, c.nextId)
    ensures var d := ConfirmSales(c, sales, 0, e);
      d.status.Ok? ==> ConfirmSales(d, sales, 0, e) == d
  {
    var d := ConfirmSales(c, sales, 0, e);
    if d.status.Ok? {
      ConfirmCovers(c, sales, 0, e);
      CoveredSalesUnchanged(d, sales, 0, e);
    }
  }

  /** A report created by `ConfirmLine` belongs to a radiology line of the sale order. */
  ghost predicate FromRadiologyLine(o: RadiologyOrder, sales: seq<SaleOrder>) {
    exists s, l :: 0 <= s < |sales| && 0 <= l < |sales[s].lines| &&
      IsRadiologyLine(sales[s].lines[l]) && o.saleOrderId == Some(sales[s].id) &&
      o.productId == Some(sales[s].lines[l].product.value.id)
  }

  /** Every report a confirmation creates is a draft of a radiology line of one of the
      confirmed sale orders. */
  ghost predicate NewOrdersFrom(c: Confirmation, d: Confirmation, sales: seq<SaleOrder>) {
    forall k :: k in d.orders && k !in c.orders ==> d.orders[k].state == Draft && FromRadiologyLine(d.orders[k], sales)
  }

  lemma {:induction false} LinesCreateRadiologyDrafts(c: Confirmation, sales: seq<SaleOrder>, s: nat, j: nat, e: ConfirmEnv)
    requires IdsBelow(c.orders, c.nextId) && s < |sales| && j <= |sales[s].lines|
    ensures NewOrdersFrom(c, ConfirmLines(c, sales[s], j, e), sales)
    decreases |sales[s].lines| - j
  {
    if j < |sales[s].lines| {
      var c1 := ConfirmLine(c, sales[s].id, sales[s].lines[j], e);
      ConfirmLineCreates(c, sales[s].id, sales[s].lines[j], e);
      LinesCreateRadiologyDrafts(c1, sales, s, j + 1, e);
      var d := ConfirmLines(c1, sales[s], j + 1, e);
      forall k | k in d.orders && k !in c.orders
        ensures d.orders[k].state == Draft && FromRadiologyLine(d.orders[k], sales)
      {
        if k in c1.orders {
          assert k == c.nextId;
          assert d.orders[k] == c1.orders[k];
          assert IsRadiologyLine(sales[s].lines[j]);
        }
      }
    }
  }

  lemma NewOrdersFromTrans(c: Confirmation, d: Confirmation, f: Confirmation, sales: seq<SaleOrder>)
    requires Grows(d, f) && NewOrdersFrom(c, d, sales) && NewOrdersFrom(d, f, sales)
    ensures NewOrdersFrom(c, f, sales)
  {
    forall k | k in f.orders && k !in c.orders
      ensures f.orders[k].state == Draft && FromRadiologyLine(f.orders[k], sales)
    {
      if k in d.orders {
        assert f.orders[k] == d.orders[k];
      }
    }
  }

  lemma {:induction false} ConfirmCreatesRadiologyDrafts(c: Confirmation, sales: seq<SaleOrder>, i: nat, e: ConfirmEnv)
    requires IdsBelow(c.orders, c.nextId) && i <= |sales|
    ensures NewOrdersFrom(c, ConfirmSales(c, sales, i, e), sales)
    decreases |sales| - i
  {
    if i < |sales| {
      var c1 := ConfirmLines(c, sales[i], 0, e);
      LinesCreateRadiologyDrafts(c, sales, i, 0, e);
      ConfirmCreatesRadiologyDrafts(c1, sales, i + 1, e);
      NewOrdersFromTrans(c, c1, ConfirmSales(c1, sales, i + 1, e), sales);
    }
  }

  /** The table and the worklist folder as a confirmation that has raised nothing. */
  function Start(orders: map<RecordId, RadiologyOrder>, nextId: RecordId, files: map<string, WorklistFile>): Confirmation {
    Confirmation(orders, nextId, files, Ok(()))
  }

  /** One line of `action_confirm` on the table and the folder. */
  method ConfirmLineStep(table: OrderTable, folder: WorklistFolder, saleId: RecordId, line: OrderLine, e: ConfirmEnv)
    returns (r: Result<()>)
    requires table.Valid() && folder.directories == e.directories
    modifies table, folder
    ensures table.Valid() && folder.directories == e.directories
    ensures var d := ConfirmLine(Start(old(table.orders), old(table.nextId), old(folder.files)), saleId, line, e);
      table.orders == d.orders && table.nextId == d.nextId && folder.files == d.files && r == d.status
  {
    if !IsRadiologyLine(line) {
      return Ok(());
    }
    var productId := line.product.value.id;
    var found := table.FindFor(saleId, productId);
    if found {
      return Ok(());
    }
    r := CreateAndSend(table, folder, saleId, line, e);
  }

  /** The report of a radiology line that has none, then its worklist entry. */
  method CreateAndSend(table: OrderTable, folder: WorklistFolder, saleId: RecordId, line: OrderLine, e: ConfirmEnv)
    returns (r: Result<()>)
    requires table.Valid() && folder.directories == e.directories && IsRadiologyLine(line)
    modifies table, folder
    ensures table.Valid() && folder.directories == e.directories
    ensures var d := CreateReport(Start(old(table.orders), old(table.nextId), old(folder.files)), saleId, line, e);
      table.orders == d.orders && table.nextId == d.nextId && folder.files == d.files && r == d.status
  {
    var id := table.nextId;
    var created := table.Create(OrderVals(None, Some(saleId), Some(line.product.value.id), ""), e.draw(id), e.uuid(id));
    if created.Err? {
      return Err(created.className, created.message);
    }
    assert table.orders[id] == LineOrder(id, OrderName(None, e.draw(id)).value, saleId, line, e);
    r := table.SendToOrthanc(created.value, folder, e.w, e.env);
    if r.Ok? {
      assert r.value == ();
    }
  }

  /** The lines of one sale order, in order, up to the first exception. */
  method ConfirmOrder(table: OrderTable, folder: WorklistFolder, sale: SaleOrder, e: ConfirmEnv) returns (r: Result<()>)
    requires table.Valid() && folder.directories == e.directories
    modifies table, folder
    ensures table.Valid() && folder.directories == e.directories
    ensures var d := ConfirmLines(Start(old(table.orders), old(table.nextId), old(folder.files)), sale, 0, e);
      table.orders == d.orders && table.nextId == d.nextId && folder.files == d.files && r == d.status
  {
    ghost var goal := ConfirmLines(Start(table.orders, table.nextId, folder.files), sale, 0, e);
    for j := 0 to |sale.lines|
      invariant table.Valid() && folder.directories == e.directories
      invariant goal == ConfirmLines(Start(table.orders, table.nextId, folder.files), sale, j, e)
    {
      r := ConfirmLineStep(table, folder, sale.id, sale.lines[j], e);
      if r.Err? {
        LinesAfterError(Start(table.orders, table.nextId, folder.files).(status := r), sale, j + 1, e);
        return;
      }
    }
    r := Ok(());
  }

  /** `action_confirm` on the sale orders `sales`, after the parent confirmation: the lines
      of each sale order in order; an exception rolls the report table back, while the ids
      drawn and the worklist files written stay. */
  method ActionConfirm(table: OrderTable, folder: WorklistFolder, sales: seq<SaleOrder>, e: ConfirmEnv) returns (r: Result<()>)
    requires table.Valid() && folder.directories == e.directories
    modifies table, folder
    ensures table.Valid() && folder.directories == e.directories
    ensures var d := ConfirmSales(Start(old(table.orders), old(table.nextId), old(folder.files)), sales, 0, e);
      && r == d.status && table.nextId == d.nextId && folder.files == d.files
      && table.orders == if r.Ok? then d.orders else old(table.orders)
  {
    var saved := table.orders;
    ghost var goal := ConfirmSales(Start(table.orders, table.nextId, folder.files), sales, 0, e);
    for i := 0 to |sales|
      invariant table.Valid() && folder.directories == e.directories
      invariant IdsBelow(saved, table.nextId)
      invariant goal == ConfirmSales(Start(table.orders, table.nextId, folder.files), sales, i, e)
    {
      ghost var before := Start(table.orders, table.nextId, folder.files);
      r := ConfirmOrder(table, folder, sales[i], e);
      assert Grows(before, ConfirmLines(before, sales[i], 0, e));
      if r.Err? {
        SalesAfterError(Start(table.orders, table.nextId, folder.files).(status := r), sales, i + 1, e);
        table.Restore(saved);
        return;
      }
      assert r.value == ();
      assert ConfirmLines(before, sales[i], 0, e) == Start(table.orders, table.nextId, folder.files);
    }
    r := Ok(());
  }

  /** The reason `action_cancel` records on each cancelled report. */
  function CancelReason(sale: SaleOrder): string {
    "Sales Order " + sale.name + " was cancelled."
  }

  /** `action_cancel`'s values, with the state key it writes. */
  function CancelVals(key: string, sale: SaleOrder): OrderWrite {
    NoValues().(state := Some(key), cancelReason := Some(CancelReason(sale)))
  }

  /** The key `action_cancel` writes is not one the state selection declares: writing it to
      any report raises the ORM's ValueError, while the declared key 'cancel' is accepted. */
  lemma CancelledKeyRaises(m: map<RecordId, RadiologyOrder>, k: RecordId, sale: SaleOrder)
    requires k in m
    ensures WriteCheck(m, [k], CancelVals("cancelled", sale)) == Err("ValueError", WrongValueMessage("cancelled"))
    ensures WriteCheck(m, [k], CancelVals("cancel", sale)) == Ok(())
  {
    assert StateOfKey("cancelled").None?;
  }

  /** Some report is linked to one of the sale orders. */
  ghost predicate AnyLinked(m: map<RecordId, RadiologyOrder>, sales: seq<SaleOrder>) {
    exists s, k :: 0 <= s < |sales| && k in m && m[k].saleOrderId == Some(sales[s].id)
  }

  /** `action_cancel` as written: the search for reports whose state differs from
      'cancelled' finds every linked report, and the first write of 'cancelled' raises, so
      the whole call rolls back; it raises exactly when some report is linked. */
  method ActionCancelAsWritten(table: OrderTable, sales: seq<SaleOrder>) returns (r: Result<()>)
    requires table.Valid()
    modifies table
    ensures table.Valid() && table.orders == old(table.orders) && table.nextId == old(table.nextId)
    ensures r.Err? <==> AnyLinked(table.orders, sales)
    ensures r.Err? ==> r == Err("ValueError", WrongValueMessage("cancelled"))
  {
    for i := 0 to |sales|
      invariant table.Valid() && table.orders == old(table.orders) && table.nextId == old(table.nextId)
      invariant forall s, k :: 0 <= s < i && k in table.orders ==> table.orders[k].saleOrderId != Some(sales[s].id)
    {
      var linked := table.SearchLinked(sales[i].id, "cancelled");
      if |linked| > 0 {
        CancelledKeyRaises(table.orders, linked[0], sales[i]);
        r := table.Write([linked[0]], CancelVals("cancelled", sales[i]));
        return;
      }
      forall k | k in table.orders
        ensures table.orders[k].saleOrderId != Some(sales[i].id)
      {
        assert StateOfKey(StateKey(table.orders[k].state)).Some?;
        assert k !in linked;
      }
    }
    r := Ok(());
  }

  /** One sale order of the corrected cancellation: its linked reports that are not yet
      cancelled become cancelled with the reason. */
  function CancelOne(m: map<RecordId, RadiologyOrder>, sale: SaleOrder): (r: map<RecordId, RadiologyOrder>)
    ensures r.Keys == m.Keys
  {
    map k | k in m :: if m[k].saleOrderId == Some(sale.id) && m[k].state != Cancel
                      then m[k].(state := Cancel, cancelReason := CancelReason(sale)) else m[k]
  }

  /** The sale orders `i..` in order. */
  function CancelAll(m: map<RecordId, RadiologyOrder>, sales: seq<SaleOrder>, i: nat): (r: map<RecordId, RadiologyOrder>)
    requires i <= |sales|
    ensures r.Keys == m.Keys
    decreases |sales| - i
  {
    if i == |sales| then m else CancelAll(CancelOne(m, sales[i]), sales, i + 1)
  }

  /** The report belongs to one of the sale orders `i..`. */
  ghost predicate LinkedTo(o: RadiologyOrder, sales: seq<SaleOrder>, i: nat) {
    exists s :: i <= s < |sales| && o.saleOrderId == Some(sales[s].id)
  }

  /** What the corrected cancellation of the sale orders `i..` turns the report `o` into
      (`p`): a linked report ends cancelled, with the reason of one of the sale orders unless
      it was cancelled already, in which case it is untouched, as is every report of another
      sale order; only the state and the reason ever change. */
  ghost predicate CancelledAsIntended(o: RadiologyOrder, p: RadiologyOrder, sales: seq<SaleOrder>, i: nat) {
    && p == o.(state := p.state, cancelReason := p.cancelReason)
    && (LinkedTo(o, sales, i) ==> p.state == Cancel)
    && (o.state == Cancel || !LinkedTo(o, sales, i) ==> p == o)
    && (o.state != Cancel && LinkedTo(o, sales, i) ==>
          exists s :: i <= s < |sales| && o.saleOrderId == Some(sales[s].id) && p.cancelReason == CancelReason(sales[s]))
  }

  lemma {:induction false} CancelAllAsIntended(m: map<RecordId, RadiologyOrder>, sales: seq<SaleOrder>, i: nat, k: RecordId)
    requires i <= |sales| && k in m
    ensures CancelledAsIntended(m[k], CancelAll(m, sales, i)[k], sales, i)
    decreases |sales| - i
  {
    if i < |sales| {
      var m1 := CancelOne(m, sales[i]);
      CancelAllAsIntended(m1, sales, i + 1, k);
      var p := CancelAll(m, sales, i)[k];
      if m[k].saleOrderId == Some(sales[i].id) {
        assert LinkedTo(m[k], sales, i);
        assert m1[k].state == Cancel && p == m1[k];
      } else {
        assert m1[k] == m[k];
        assert LinkedTo(m[k], sales, i) <==> LinkedTo(m[k], sales, i + 1);
      }
    }
  }

  /** The table after `Written` on the distinct records `ids[..j+1]` is the one after
      `ids[..j]` written once more on `ids[j]`. */
  lemma WrittenStep(m: map<RecordId, RadiologyOrder>, ids: seq<RecordId>, j: nat, v: OrderWrite)
    requires j < |ids| && forall a, b :: 0 <= a < b < |ids| ==> ids[a] != ids[b]
    requires forall t :: 0 <= t < |ids| ==> ids[t] in m
    ensures Written(Written(m, ids[..j], v), [ids[j]], v) == Written(m, ids[..j + 1], v)
  {
    assert ids[j] !in ids[..j];
    assert forall k :: k in ids[..j + 1] <==> k in ids[..j] || k == ids[j];
  }

  /** The corrected `action_cancel`: each sale order's reports whose state is not 'cancel'
      receive the state 'cancel' and the reason, one write per report. */
  method ActionCancel(table: OrderTable, sales: seq<SaleOrder>)
    requires table.Valid()
    modifies table
    ensures table.Valid() && table.nextId == old(table.nextId)
    ensures table.orders == CancelAll(old(table.orders), sales, 0)
  {
    for i := 0 to |sales|
      invariant table.Valid() && table.nextId == old(table.nextId)
      invariant CancelAll(old(table.orders), sales, 0) == CancelAll(table.orders, sales, i)
    {
      CancelOrder(table, sales[i]);
    }
  }

  /** The reports of one sale order in the corrected `action_cancel`. */
  method CancelOrder(table: OrderTable, sale: SaleOrder)
    requires table.Valid()
    modifies table
    ensures table.Valid() && table.nextId == old(table.nextId)
    ensures table.orders == CancelOne(old(table.orders), sale)
  {
    var linked := table.SearchLinked(sale.id, "cancel");
    ghost var m := table.orders;
    var v := CancelVals("cancel", sale);
    for j := 0 to |linked|
      invariant table.Valid() && table.nextId == old(table.nextId)
      invariant table.orders == Written(m, linked[..j], v)
    {
      StateWriteNeverLocked(table.orders, [linked[j]], v);
      var _ := table.Write([linked[j]], v);
      WrittenStep(m, linked, j, v);
    }
    assert linked[..|linked|] == linked;
    forall k | k in m
      ensures Written(m, linked, v)[k] == CancelOne(m, sale)[k]
    {
      assert k in linked <==> m[k].saleOrderId == Some(sale.id) && m[k].state != Cancel;
    }
  }
}
