/** The cart panel's checkout: submitting the delivery form writes one order
    row built from the cart, and only a successful write clears the cart,
    hides the form, closes the panel and blanks the form. The cart itself
    belongs to a shared cart context whose implementation is not part of this
    model: its item list and total are inputs, and what the panel asks of it
    is recorded as requests. */
module Checkout {
  import opened Types

  /** The delivery form. */
  datatype CheckoutForm = CheckoutForm(
    customerName: string,
    phone: string,
    address: string,
    deliveryType: DeliveryType)

  /** The form's initial and reset value: empty fields, home delivery. */
  const BlankForm := CheckoutForm("", "", "", Home)

  /** The panel's own state: whether the form is shown instead of the item
      list, and the form. */
  datatype Panel = Panel(showCheckout: bool, form: CheckoutForm)

  /** A call the panel makes into the cart context. */
  datatype CartRequest =
    | SetQuantity(productId: string, quantity: int)
    | Remove(productId: string)
    | Clear
    | SetOpen(open: bool)

  /** The row inserted into the `orders` table; the store adds `id` and
      `created_at`. */
  datatype NewOrder = NewOrder(
    customerName: string,
    phone: string,
    address: string,
    deliveryType: DeliveryType,
    items: seq<OrderLine>,
    totalPrice: int,
    status: OrderStatus)

  datatype InsertOutcome = Inserted | InsertFailed(message: string)

  /** The outcome of one submission: nothing at all, or the row that was sent
      with what followed from the store's answer. */
  datatype Submission =
    | Skipped
    | Submitted(row: NewOrder, panel: Panel, requests: seq<CartRequest>, notice: Notice)

  /** The order lines written for the cart items, one per item, in order. */
  function Snapshot(items: seq<CartItem>): (lines: seq<OrderLine>)
    ensures |lines| == |items|
    ensures forall i :: 0 <= i < |items| ==>
              && lines[i].productId == items[i].product.id
              && lines[i].name == items[i].product.name
              && lines[i].price == items[i].product.newPrice
              && lines[i].quantity == items[i].quantity
  {
    if items == [] then []
    else
      var it := items[0];
      [OrderLine(it.product.id, it.product.name, it.product.newPrice, it.quantity)] + Snapshot(items[1..])
  }

  /** The cart total as the cart context defines it: unit price times
      quantity, summed over the items. */
  function CartTotal(items: seq<CartItem>): int
  {
    if items == [] then 0 else items[0].product.newPrice * items[0].quantity + CartTotal(items[1..])
  }

  /** The total of an order's lines. */
  function LinesTotal(lines: seq<OrderLine>): int
  {
    if lines == [] then 0 else lines[0].price * lines[0].quantity + LinesTotal(lines[1..])
  }

  /** The snapshot carries everything the total depends on: its lines add up
      to the cart total. */
  lemma {:induction false} SnapshotKeepsTotal(items: seq<CartItem>)
    ensures LinesTotal(Snapshot(items)) == CartTotal(items)
  {
    if items != [] {
      SnapshotKeepsTotal(items[1..]);
      assert Snapshot(items)[1..] == Snapshot(items[1..]);
    }
  }

  /** The row written for the form, the cart items and the cart total: the
      form's fields, the snapshot of the items, the total, and status
      pending. */
  function OrderRow(f: CheckoutForm, items: seq<CartItem>, total: int): (row: NewOrder)
    ensures row.customerName == f.customerName && row.phone == f.phone
    ensures row.address == f.address && row.deliveryType == f.deliveryType
    ensures row.items == Snapshot(items)
    ensures row.totalPrice == total && row.status == Pending
  {
    NewOrder(f.customerName, f.phone, f.address, f.deliveryType, Snapshot(items), total, Pending)
  }

  /** `handleSubmit`, given the cart's items and total and the store's answer. */
  function Submit(p: Panel, items: seq<CartItem>, total: int, outcome: InsertOutcome): (r: Submission)
    ensures r.Skipped? <==> |items| == 0
    ensures r.Submitted? ==> r.row == OrderRow(p.form, items, total)
    ensures r.Submitted? && outcome.Inserted? ==>
              r.panel == Panel(false, BlankForm) && r.requests == [Clear, SetOpen(false)] && r.notice.SuccessNotice?
    ensures r.Submitted? && outcome.InsertFailed? ==>
              r.panel == p && r.requests == [] && r.notice == ErrorNotice(outcome.message)
  {
    if |items| == 0 then Skipped
    else
      var row := OrderRow(p.form, items, total);
      match outcome
      case Inserted => Submitted(row, Panel(false, BlankForm), [Clear, SetOpen(false)], SuccessNotice("order_success"))
      case InsertFailed(m) => Submitted(row, p, [], ErrorNotice(m))
  }

  /** When the total passed in is the cart total, the stored row is
      self-consistent: its total is the sum of its lines. */
  lemma {:induction false} SubmittedTotalMatchesLines(p: Panel, items: seq<CartItem>, outcome: InsertOutcome)
    requires |items| > 0
    ensures var row := Submit(p, items, CartTotal(items), outcome).row;
            row.totalPrice == LinesTotal(row.items)
  {
    SnapshotKeepsTotal(items);
  }

  /** A failed submission leaves everything as it was, so submitting again
      sends exactly the same row. */
  lemma FailedSubmitIsRetryable(p: Panel, items: seq<CartItem>, total: int, m: string, next: InsertOutcome)
    requires |items| > 0
    ensures var first := Submit(p, items, total, InsertFailed(m));
            Submit(first.panel, items, total, next).row == first.row
  {
  }

  /** Whatever the outcome, the row sent depends only on the form, the items
      and the total: the store's answer never changes what was written. */
  lemma RowIndependentOfOutcome(p: Panel, items: seq<CartItem>, total: int, o1: InsertOutcome, o2: InsertOutcome)
    requires |items| > 0
    ensures Submit(p, items, total, o1).row == Submit(p, items, total, o2).row
  {
  }

  /** The three buttons beside each cart item. */
  datatype ItemButton = Minus | Plus | Trash

  /** The request each button sends for its item. */
  function ButtonRequest(item: CartItem, b: ItemButton): (r: CartRequest)
    ensures r.SetQuantity? || r.Remove?
    ensures r.productId == item.product.id
    ensures r.Remove? <==> b == Trash
    ensures r.SetQuantity? ==> r.quantity - item.quantity == (if b == Plus then 1 else -1)
  {
    match b
    case Minus => SetQuantity(item.product.id, item.quantity - 1)
    case Plus => SetQuantity(item.product.id, item.quantity + 1)
    case Trash => Remove(item.product.id)
  }
}
