/**
 * The seller's order-management page: the e-mail search that filters both the
 * table and the Excel export, the two sheets of the export (one summary row per
 * order, one detail row per order item), and the rule of the status dialog.
 * Writing the workbook file and formatting dates are not modelled: a row carries
 * the raw `createdAt` timestamp where the sheet shows its formatted date.
 */
module SellerOrders {
  import opened Wrappers
  import opened JsText
  import opened Seqs
  import opened Domain

  // ---------------------------------------------------------------- e-mail filter

  /** `!searchEmail || o.userEmail.toLowerCase().includes(searchEmail.toLowerCase())`. */
  predicate EmailMatches(searchEmail: string, o: Order) {
    searchEmail == "" || Contains(Lower(o.userEmail), Lower(searchEmail))
  }

  /** The orders of the page that the search keeps, in page order. */
  function Visible(content: seq<Order>, searchEmail: string): (r: seq<Order>)
    ensures searchEmail == "" ==> r == content
    ensures |r| <= |content|
    ensures forall i :: 0 <= i < |r| ==> EmailMatches(searchEmail, r[i])
  {
    Filter(content, o => EmailMatches(searchEmail, o))
  }

  /** An order is listed exactly when it is on the page and its e-mail matches. */
  lemma VisibleMembers(content: seq<Order>, searchEmail: string, o: Order)
    ensures o in Visible(content, searchEmail) <==> o in content && EmailMatches(searchEmail, o)
  {
    FilterMembers(content, o => EmailMatches(searchEmail, o), o);
  }

  lemma LowerOfUpper(s: string)
    ensures Lower(Upper(s)) == Lower(s)
  {
  }

  /** The search ignores the case of ASCII letters: typing it upper-case lists the same orders. */
  lemma SearchIgnoresCase(content: seq<Order>, searchEmail: string)
    ensures Visible(content, Upper(searchEmail)) == Visible(content, searchEmail)
  {
    LowerOfUpper(searchEmail);
    assert forall o :: EmailMatches(Upper(searchEmail), o) == EmailMatches(searchEmail, o);
    FilterCongruent(content, o => EmailMatches(Upper(searchEmail), o), o => EmailMatches(searchEmail, o));
  }

  /** The rows of the table: nothing before a page is loaded, otherwise the visible orders. */
  function TableRows(data: Option<Page<Order>>, searchEmail: string): (r: seq<Order>)
    ensures data.None? ==> r == []
    ensures data.Some? ==> r == Visible(data.value.content, searchEmail)
  {
    if data.None? then [] else Visible(data.value.content, searchEmail)
  }

  /** Once loading is over, the page shows its "no orders" card instead of the table. */
  predicate ShowsEmptyState(loading: bool, data: Option<Page<Order>>, searchEmail: string) {
    !loading && (data.None? || Visible(data.value.content, searchEmail) == [])
  }

  /** The export button is disabled while no page, or an empty page, is loaded. */
  predicate ExportDisabled(data: Option<Page<Order>>) {
    data.None? || data.value.content == []
  }

  // ---------------------------------------------------------------- export

  /** A row of the summary sheet "Заказы". */
  datatype SummaryRow = SummaryRow(orderId: int, createdAt: int, userEmail: string, status: string,
                                   itemCount: int, totalAmount: int)

  /** A row of the detail sheet "Детали товаров". */
  datatype ItemRow = ItemRow(orderId: int, createdAt: int, userEmail: string, productName: string, sku: string,
                             unitPrice: int, quantity: int, subtotal: int)

  datatype Workbook = Workbook(summary: seq<SummaryRow>, items: seq<ItemRow>)

  function SummaryOf(o: Order): SummaryRow {
    SummaryRow(o.id, o.createdAt, o.userEmail, StatusLabel(o.status), |o.items|, o.totalAmount)
  }

  function ItemRowOf(o: Order, item: OrderItem): ItemRow {
    ItemRow(o.id, o.createdAt, o.userEmail, item.product.name, item.product.sku, item.priceAtPurchase,
            item.quantity, item.subtotal)
  }

  /** `filteredOrders.map(...)`: one summary row per order, in order. */
  function SummaryRows(orders: seq<Order>): (r: seq<SummaryRow>)
    ensures |r| == |orders|
    ensures forall i :: 0 <= i < |r| ==>
              r[i].orderId == orders[i].id && r[i].itemCount == |orders[i].items| && r[i].status == StatusLabel(orders[i].status)
  {
    seq(|orders|, i requires 0 <= i < |orders| => SummaryOf(orders[i]))
  }

  /** The detail rows of one order, one per item, in item order. */
  function OrderItemRows(o: Order): (r: seq<ItemRow>)
    ensures |r| == |o.items|
  {
    seq(|o.items|, j requires 0 <= j < |o.items| => ItemRowOf(o, o.items[j]))
  }

  /** What the nested `forEach` pushes produce: the detail rows of every order, order after order. */
  function ItemRows(orders: seq<Order>): seq<ItemRow>
    decreases |orders|
  {
    if orders == [] then [] else ItemRows(orders[..|orders| - 1]) + OrderItemRows(orders[|orders| - 1])
  }

  /** The number of items over a list of orders. */
  function ItemCount(orders: seq<Order>): nat
    decreases |orders|
  {
    if orders == [] then 0 else ItemCount(orders[..|orders| - 1]) + |orders[|orders| - 1].items|
  }

  /** The nested loop that fills `itemsData`. */
  method BuildItemRows(orders: seq<Order>) returns (rows: seq<ItemRow>)
    ensures rows == ItemRows(orders)
  {
    rows := [];
    for k := 0 to |orders|
      invariant rows == ItemRows(orders[..k])
    {
      var o := orders[k];
      ghost var before := rows;
      for j := 0 to |o.items|
        invariant rows == before + OrderItemRows(o)[..j]
      {
        rows := rows + [ItemRowOf(o, o.items[j])];
      }
      assert OrderItemRows(o)[..|o.items|] == OrderItemRows(o);
      assert orders[..k + 1][..k] == orders[..k];
    }
    assert orders[..|orders|] == orders;
  }

  /**
   * `handleExportToExcel`: `None` is the "Нет данных для экспорта" alert (no page, an
   * empty page, or a search that leaves nothing); otherwise the two sheets.
   */
  method ExportToExcel(data: Option<Page<Order>>, searchEmail: string) returns (wb: Option<Workbook>)
    ensures wb.None? <==> data.None? || Visible(data.value.content, searchEmail) == []
    ensures wb.Some? ==> wb.value.summary == SummaryRows(TableRows(data, searchEmail))
                         && wb.value.items == ItemRows(TableRows(data, searchEmail))
  {
    if data.None? || |data.value.content| == 0 {
      return None;
    }
    var filtered := Visible(data.value.content, searchEmail);
    if |filtered| == 0 {
      return None;
    }
    var items := BuildItemRows(filtered);
    wb := Some(Workbook(SummaryRows(filtered), items));
  }

  /** Once loaded, the "no orders" card is shown exactly when an export would be refused. */
  lemma EmptyStateIffNoExport(data: Option<Page<Order>>, searchEmail: string)
    ensures ShowsEmptyState(false, data, searchEmail) <==> data.None? || Visible(data.value.content, searchEmail) == []
    ensures ExportDisabled(data) ==> ShowsEmptyState(false, data, searchEmail)
  {
  }

  /** The detail sheet has one row per item of the exported orders. */
  lemma {:induction false} ItemRowsLength(orders: seq<Order>)
    ensures |ItemRows(orders)| == ItemCount(orders)
    decreases |orders|
  {
    if orders != [] {
      ItemRowsLength(orders[..|orders| - 1]);
    }
  }

  /** The rows of the orders before `k` come first, so the rows are grouped by order in order. */
  lemma {:induction false} ItemRowsPrefix(orders: seq<Order>, k: nat)
    requires k <= |orders|
    ensures ItemRows(orders[..k]) <= ItemRows(orders)
    decreases |orders|
  {
    if k < |orders| {
      var init := orders[..|orders| - 1];
      assert orders[..k] == init[..k];
      ItemRowsPrefix(init, k);
    } else {
      assert orders[..k] == orders;
    }
  }

  /** Item `j` of order `k` is detail row number (items of the orders before `k`) + `j`. */
  lemma ItemRowsLocate(orders: seq<Order>, k: nat, j: nat)
    requires k < |orders| && j < |orders[k].items|
    ensures ItemCount(orders[..k]) + j < |ItemRows(orders)|
    ensures ItemRows(orders)[ItemCount(orders[..k]) + j] == ItemRowOf(orders[k], orders[k].items[j])
  {
    var upto := orders[..k + 1];
    assert upto[..k] == orders[..k];
    ItemRowsLength(orders[..k]);
    ItemRowsPrefix(orders, k + 1);
    assert ItemRows(upto) == ItemRows(orders[..k]) + OrderItemRows(orders[k]);
    assert ItemRows(upto)[ItemCount(orders[..k]) + j] == OrderItemRows(orders[k])[j];
  }

  // ---------------------------------------------------------------- status dialog

  /** The dialog's state: the chosen order, the status picked for it, and whether an update runs. */
  datatype StatusDialog = StatusDialog(selected: Option<Order>, newStatus: OrderStatus, shown: bool, updating: bool)

  /** `handleOpenStatusModal`: the picker starts at the order's current status. */
  function OpenStatusDialog(d: StatusDialog, o: Order): (r: StatusDialog)
    ensures r.selected == Some(o) && r.newStatus == o.status && r.shown
    ensures r.updating == d.updating
  {
    d.(selected := Some(o), newStatus := o.status, shown := true)
  }

  /** The "update" button is disabled while updating, with no order, or with the status unchanged. */
  predicate UpdateDisabled(d: StatusDialog) {
    d.updating || d.selected.None? || d.newStatus == d.selected.value.status
  }

  /** The PATCH `handleUpdateStatus` sends: order id and new status, or nothing without an order. */
  function StatusUpdate(d: StatusDialog): (r: Option<(int, OrderStatus)>)
    ensures r.None? <==> d.selected.None?
    ensures r.Some? ==> r.value == (d.selected.value.id, d.newStatus)
  {
    if d.selected.None? then None else Some((d.selected.value.id, d.newStatus))
  }

  /**
   * A freshly opened dialog cannot submit until another status is picked, and an
   * enabled button always asks for a status different from the current one.
   */
  lemma UpdateNeedsAChange(d: StatusDialog, o: Order, s: OrderStatus)
    ensures UpdateDisabled(OpenStatusDialog(d, o))
    ensures var picked := OpenStatusDialog(d, o).(newStatus := s);
            !UpdateDisabled(picked) <==> !d.updating && s != o.status
    ensures !UpdateDisabled(d) ==> StatusUpdate(d).Some? && StatusUpdate(d).value.1 != d.selected.value.status
  {
  }
}
