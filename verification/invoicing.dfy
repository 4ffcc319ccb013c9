/** Invoices derived from purchase orders (InvoiceController).

    The invoices table is a sequence of rows in creation order, so that "the
    latest invoice" is the last matching row. Purchase orders are read-only
    here: they are created by the purchase-order controller, which is not part
    of this model, and are passed in as a sequence. Money is integer cents. */
module Invoicing {
  import opened Outcomes
  import InvoiceNumbers

  /** The three values the `status` column takes. */
  datatype Status = Pending | Paid | Cancelled

  /** One stored purchase-order line, reduced to what invoicing reads. */
  datatype PoItem = PoItem(id: nat, skuId: nat, quantity: int, discountedPrice: int)

  datatype PurchaseOrder = PurchaseOrder(id: nat, poNumber: string, items: seq<PoItem>)

  /** One submitted invoice line: the quantity billed and its unit price. */
  datatype InvoiceLine = InvoiceLine(invoiceQty: int, discountedPrice: int)

  /** The fields of a store request. `totalAmount` is the client's own total:
      it must be present, and is otherwise never used. */
  datatype InvoiceRequest = InvoiceRequest(
    purchaseOrderId: nat,
    number: string,
    date: string,
    remarks: Option<string>,
    items: seq<InvoiceLine>,
    totalAmount: Option<int>)

  datatype Invoice = Invoice(
    id: nat,
    purchaseOrderId: nat,
    number: string,
    date: string,
    totalAmount: int,
    status: Status,
    remarks: Option<string>,
    createdBy: nat)

  /** The string stored in the `status` column. */
  function StatusName(st: Status): string {
    match st
    case Pending => "pending"
    case Paid => "paid"
    case Cancelled => "cancelled"
  }

  /** The rule `required|in:pending,paid,cancelled`: exactly the three names
      are accepted, and each gives the status stored under that name. */
  function ParseStatus(s: string): (r: Option<Status>)
    ensures r.Some? <==> s == "pending" || s == "paid" || s == "cancelled"
    ensures r.Some? ==> StatusName(r.value) == s
  {
    if s == "pending" then Some(Pending)
    else if s == "paid" then Some(Paid)
    else if s == "cancelled" then Some(Cancelled)
    else None
  }

  /** Every stored status name parses back to its status. */
  lemma StatusNameRoundTrip(st: Status)
    ensures ParseStatus(StatusName(st)) == Some(st)
  {
  }

  function LineValue(line: InvoiceLine): int {
    line.invoiceQty * line.discountedPrice
  }

  /** Sum of invoice_qty × discounted_price over the submitted lines. */
  function Total(lines: seq<InvoiceLine>): int {
    if lines == [] then 0 else Total(lines[..|lines| - 1]) + LineValue(lines[|lines| - 1])
  }

  /** The total of two batches of lines is the sum of their totals. */
  lemma {:induction false} TotalAppend(a: seq<InvoiceLine>, b: seq<InvoiceLine>)
    ensures Total(a + b) == Total(a) + Total(b)
  {
    if b == [] {
      assert a + b == a;
    } else {
      var front := b[..|b| - 1];
      assert (a + b)[..|a + b| - 1] == a + front;
      TotalAppend(a, front);
    }
  }

  /** The `foreach` of store that accumulates `$calculatedTotal`. */
  method CalculateTotal(items: seq<InvoiceLine>) returns (total: int)
    ensures total == Total(items)
  {
    total := 0;
    var i := 0;
    while i < |items|
      invariant 0 <= i <= |items|
      invariant total == Total(items[..i])
    {
      assert items[..i + 1][..i] == items[..i];
      total := total + items[i].invoiceQty * items[i].discountedPrice;
      i := i + 1;
    }
    assert items[..i] == items;
  }

  /** Sum of quantity × discounted_price over a purchase order's stored lines. */
  function OrderValue(items: seq<PoItem>): int {
    if items == [] then 0
    else OrderValue(items[..|items| - 1]) + items[|items| - 1].quantity * items[|items| - 1].discountedPrice
  }

  /** The lines getPurchaseOrderItems offers for invoicing: one per stored
      purchase-order line, with invoice_qty defaulted to the ordered quantity. */
  function DefaultLines(items: seq<PoItem>): (lines: seq<InvoiceLine>)
    ensures |lines| == |items|
    ensures forall i :: 0 <= i < |items| ==>
      lines[i].invoiceQty == items[i].quantity && lines[i].discountedPrice == items[i].discountedPrice
  {
    seq(|items|, i requires 0 <= i < |items| => InvoiceLine(items[i].quantity, items[i].discountedPrice))
  }

  /** Invoicing the default lines bills the whole order:
      their total is Σ quantity × discounted_price of the order's lines. */
  lemma {:induction false} DefaultLinesBillWholeOrder(items: seq<PoItem>)
    ensures Total(DefaultLines(items)) == OrderValue(items)
  {
    if items != [] {
      var front := items[..|items| - 1];
      assert DefaultLines(items)[..|items| - 1] == DefaultLines(front);
      DefaultLinesBillWholeOrder(front);
    }
  }

  predicate OrderExists(orders: seq<PurchaseOrder>, id: nat) {
    exists k :: 0 <= k < |orders| && orders[k].id == id
  }

  /** `PurchaseOrder::findOrFail($id)`: the first order with that id. */
  function FindOrder(orders: seq<PurchaseOrder>, id: nat): (r: Option<PurchaseOrder>)
    ensures r.None? <==> !OrderExists(orders, id)
    ensures r.Some? ==> r.value in orders && r.value.id == id
  {
    if orders == [] then None
    else if orders[0].id == id then Some(orders[0])
    else FindOrder(orders[1..], id)
  }

  /** getPurchaseOrderItems: NotFound for an unknown order; otherwise the
      default lines, which bill exactly the order's own value. */
  function PurchaseOrderItems(orders: seq<PurchaseOrder>, id: nat): (r: Result<seq<InvoiceLine>>)
    ensures r.Err? <==> !OrderExists(orders, id)
    ensures r.Err? ==> r.error == NotFound
    ensures r.Ok? ==> exists k :: (0 <= k < |orders| && orders[k].id == id
                                   && r.value == DefaultLines(orders[k].items)
                                   && Total(r.value) == OrderValue(orders[k].items))
  {
    match FindOrder(orders, id)
    case None => Err(NotFound)
    case Some(po) =>
      DefaultLinesBillWholeOrder(po.items);
      Ok(DefaultLines(po.items))
  }

  /** Some invoice refers to the purchase order `poId`. */
  predicate Invoiced(invoices: seq<Invoice>, poId: nat) {
    exists i :: 0 <= i < |invoices| && invoices[i].purchaseOrderId == poId
  }

  /** The purchase orders index offers for invoicing
      (`whereNotIn('id', Invoice::pluck('purchase_order_id'))`), in their order. */
  function Uninvoiced(orders: seq<PurchaseOrder>, invoices: seq<Invoice>): (r: seq<PurchaseOrder>)
    ensures |r| <= |orders|
    ensures forall k :: 0 <= k < |r| ==> r[k] in orders && !Invoiced(invoices, r[k].id)
    ensures forall k :: 0 <= k < |orders| && !Invoiced(invoices, orders[k].id) ==> orders[k] in r
  {
    if orders == [] then []
    else
      var rest := Uninvoiced(orders[1..], invoices);
      if Invoiced(invoices, orders[0].id) then rest else [orders[0]] + rest
  }

  /** A purchase order drops off the list once an invoice refers to it. */
  lemma StoredOrderNotListed(orders: seq<PurchaseOrder>, rows: seq<Invoice>, inv: Invoice)
    ensures forall k :: 0 <= k < |Uninvoiced(orders, rows + [inv])| ==>
      Uninvoiced(orders, rows + [inv])[k].id != inv.purchaseOrderId
  {
    assert Invoiced(rows + [inv], inv.purchaseOrderId) by {
      assert (rows + [inv])[|rows|] == inv;
    }
  }

  predicate HasId(rows: seq<Invoice>, id: nat) {
    exists i :: 0 <= i < |rows| && rows[i].id == id
  }

  predicate NumberTaken(rows: seq<Invoice>, number: string) {
    exists i :: 0 <= i < |rows| && rows[i].number == number
  }

  /** The validation rules of store that the model keeps:
      `purchase_order_id` exists, `invoice_number` is filled and unused,
      `date` is filled, `items` is a non-empty array, `total_amount` is present. */
  predicate Admissible(rows: seq<Invoice>, orders: seq<PurchaseOrder>, req: InvoiceRequest) {
    && OrderExists(orders, req.purchaseOrderId)
    && !Blank(req.number)
    && !NumberTaken(rows, req.number)
    && !Blank(req.date)
    && |req.items| > 0
    && req.totalAmount.Some?
  }

  /** The rows after updateStatus has set invoice `id` to `st`. */
  function WithStatus(rows: seq<Invoice>, id: nat, st: Status): (r: seq<Invoice>)
    ensures |r| == |rows|
    ensures forall i :: 0 <= i < |rows| ==> r[i].(status := rows[i].status) == rows[i]
    ensures forall i :: 0 <= i < |rows| && rows[i].id == id ==> r[i].status == st
    ensures forall i :: 0 <= i < |rows| && rows[i].id != id ==> r[i] == rows[i]
  {
    seq(|rows|, i requires 0 <= i < |rows| => if rows[i].id == id then rows[i].(status := st) else rows[i])
  }

  /** No transition guard: whatever the current status, the last update wins. */
  lemma LastStatusWins(rows: seq<Invoice>, id: nat, first: Status, second: Status)
    ensures WithStatus(WithStatus(rows, id, first), id, second) == WithStatus(rows, id, second)
  {
  }

  /** Setting the same status twice is the same as setting it once. */
  lemma StatusUpdateIdempotent(rows: seq<Invoice>, id: nat, st: Status)
    ensures WithStatus(WithStatus(rows, id, st), id, st) == WithStatus(rows, id, st)
  {
    LastStatusWins(rows, id, st, st);
  }

  /** A status change, even to `cancelled`, does not put the purchase order
      back among the uninvoiced ones. */
  lemma {:induction false} StatusDoesNotReopenOrder(orders: seq<PurchaseOrder>, rows: seq<Invoice>, id: nat, st: Status)
    ensures Uninvoiced(orders, WithStatus(rows, id, st)) == Uninvoiced(orders, rows)
  {
    if orders != [] {
      var updated := WithStatus(rows, id, st);
      var po := orders[0].id;
      if Invoiced(rows, po) {
        var i :| 0 <= i < |rows| && rows[i].purchaseOrderId == po;
        assert updated[i].purchaseOrderId == po;
      }
      if Invoiced(updated, po) {
        var i :| 0 <= i < |updated| && updated[i].purchaseOrderId == po;
        assert rows[i].purchaseOrderId == po;
      }
      StatusDoesNotReopenOrder(orders[1..], rows, id, st);
    }
  }

  /** `Invoice::where('invoice_number', 'like', $prefix . '%')->latest()->first()`:
      the number of the most recently created invoice that starts with `prefix`. */
  function LatestNumber(rows: seq<Invoice>, prefix: string): (r: Option<string>)
    ensures r.None? <==> forall i :: 0 <= i < |rows| ==> !(prefix <= rows[i].number)
    ensures r.Some? ==> exists i :: (0 <= i < |rows| && rows[i].number == r.value && prefix <= r.value
                                     && forall j :: i < j < |rows| ==> !(prefix <= rows[j].number))
  {
    if rows == [] then None
    else if prefix <= rows[|rows| - 1].number then Some(rows[|rows| - 1].number)
    else LatestNumber(rows[..|rows| - 1], prefix)
  }

  /** generateInvoiceNumber over the current invoices, `today` being `date('Ymd')`. */
  function GenerateInvoiceNumber(rows: seq<Invoice>, today: string): (r: string)
    ensures InvoiceNumbers.DatePrefix(today) + "-" <= r
  {
    InvoiceNumbers.Next(today, LatestNumber(rows, InvoiceNumbers.DatePrefix(today)))
  }

  /** With no invoice numbered under today's prefix, the number is `…-0001`. */
  lemma GenerateFirstOfDay(rows: seq<Invoice>, today: string)
    requires forall i :: 0 <= i < |rows| ==> !(InvoiceNumbers.DatePrefix(today) <= rows[i].number)
    ensures GenerateInvoiceNumber(rows, today) == InvoiceNumbers.DatePrefix(today) + "-0001"
  {
    InvoiceNumbers.FirstOfTheDay(today);
  }

  /** An invoice just stored under `prefix` is the latest one under it. */
  lemma LatestIsLastStored(rows: seq<Invoice>, inv: Invoice, prefix: string)
    requires prefix <= inv.number
    ensures LatestNumber(rows + [inv], prefix) == Some(inv.number)
  {
  }

  /** Once an invoice numbered `…-n` (n ≤ 9999) for today has been stored, the
      next generated number is `…-(n+1)`, whatever came before it. */
  lemma GenerateAfterStored(rows: seq<Invoice>, inv: Invoice, today: string, n: int)
    requires 0 <= n <= 9999
    requires inv.number == InvoiceNumbers.Format(today, n)
    ensures GenerateInvoiceNumber(rows + [inv], today) == InvoiceNumbers.Format(today, n + 1)
  {
    LatestIsLastStored(rows, inv, InvoiceNumbers.DatePrefix(today));
    InvoiceNumbers.NextAfterFormatted(today, n);
  }

  /** The position of the invoice with id `id`, if any. */
  function IndexOfId(rows: seq<Invoice>, id: nat): (r: Option<nat>)
    ensures r.None? <==> !HasId(rows, id)
    ensures r.Some? ==> r.value < |rows| && rows[r.value].id == id
  {
    if rows == [] then None
    else if rows[|rows| - 1].id == id then Some(|rows| - 1)
    else IndexOfId(rows[..|rows| - 1], id)
  }

  /** The invoices table. */
  class InvoiceBook {
    var rows: seq<Invoice>
    /** The id the database will give the next inserted row. */
    var nextId: nat

    /** Ids are unique and below nextId; invoice numbers are unique
        (the column's unique index). */
    ghost predicate Valid()
      reads this
    {
      && (forall i :: 0 <= i < |rows| ==> rows[i].id < nextId)
      && (forall i, j :: 0 <= i < j < |rows| ==> rows[i].id != rows[j].id && rows[i].number != rows[j].number)
    }

    constructor ()
      ensures Valid() && rows == [] && nextId == 1
    {
      rows := [];
      nextId := 1;
    }

    /** store: refused with Invalid, and nothing changes, unless the request
        is admissible; otherwise exactly one invoice is appended, with status
        pending, the current user as creator, and the total recomputed from
        the submitted lines (the submitted total is ignored). */
    method Store(orders: seq<PurchaseOrder>, req: InvoiceRequest, user: nat) returns (r: Result<nat>)
      requires Valid()
      modifies this
      ensures Valid()
      ensures r.Ok? <==> Admissible(old(rows), orders, req)
      ensures r.Err? ==> r.error == Invalid && rows == old(rows) && nextId == old(nextId)
      ensures r.Ok? ==> !HasId(old(rows), r.value) && nextId == old(nextId) + 1
      ensures r.Ok? ==> rows == old(rows) + [Invoice(r.value, req.purchaseOrderId, req.number, req.date,
                                                     Total(req.items), Pending, req.remarks, user)]
    {
      if !Admissible(rows, orders, req) {
        return Err(Invalid);
      }
      var total := CalculateTotal(req.items);
      var id := nextId;
      rows := rows + [Invoice(id, req.purchaseOrderId, req.number, req.date, total, Pending, req.remarks, user)];
      nextId := nextId + 1;
      r := Ok(id);
    }

    /** updateStatus: the status is validated first (Invalid), then the
        invoice is looked up (NotFound); on success only that invoice's
        status changes, to whatever was asked. */
    method UpdateStatus(id: nat, status: string) returns (r: Outcome)
      requires Valid()
      modifies this
      ensures Valid() && nextId == old(nextId)
      ensures ParseStatus(status).None? ==> r == Fail(Invalid) && rows == old(rows)
      ensures ParseStatus(status).Some? && !HasId(old(rows), id) ==> r == Fail(NotFound) && rows == old(rows)
      ensures ParseStatus(status).Some? && HasId(old(rows), id) ==>
        r == Pass && rows == WithStatus(old(rows), id, ParseStatus(status).value)
    {
      var st := ParseStatus(status);
      if st.None? {
        return Fail(Invalid);
      }
      var k := IndexOfId(rows, id);
      if k.None? {
        return Fail(NotFound);
      }
      var i := k.value;
      var updated := rows[i := rows[i].(status := st.value)];
      forall j | 0 <= j < |rows|
        ensures updated[j] == WithStatus(rows, id, st.value)[j]
      {
        if j != i {
          assert rows[j].id != rows[i].id;
        }
      }
      rows := updated;
      r := Pass;
    }
  }
}
