/**
 * Order submission and the order status workflow of OrderManagement.jsx:
 * the "Create New Order" form (a cart plus customer name and payment
 * method), the order and order-item rows that submitOrder writes, and
 * the status buttons that drive updateOrderStatus.
 */
module Orders {
  import opened Common
  import opened Cart

  /** Values of orders.status that the screen reads and writes. */
  datatype Status = Pending | Preparing | Completed | Cancelled

  /** The options of the payment select. */
  datatype PaymentMethod = Cash | GCash | Card

  /** A row of order_items as submitOrder builds it. */
  datatype OrderItem = OrderItem(orderId: int, menuId: int, quantity: int, unitPrice: real)

  /**
   * An order row together with its items. `completedAt` is the ISO time
   * string written when the order is marked complete; the clock is a parameter.
   */
  datatype Order = Order(
    orderId: int,
    orderNumber: string,
    customerName: string,
    paymentMethod: PaymentMethod,
    status: Status,
    completedAt: Option<string>,
    items: seq<OrderItem>)

  /** Why submitOrder stops before writing anything. */
  datatype SubmitError = EmptyOrder

  const WalkInCustomer: string := "Walk-in Customer"

  // ---------------------------------------------------------------------
  // Order numbers: `ORD-${Date.now()}`

  function DigitChar(d: nat): (c: char)
    requires d < 10
    ensures '0' <= c <= '9'
    ensures c as int - '0' as int == d
  {
    "0123456789"[d]
  }

  /** The value of one decimal digit character. */
  function DigitValue(c: char): (d: nat)
    requires '0' <= c <= '9'
    ensures d < 10
  {
    c as int - '0' as int
  }

  predicate IsDigits(s: string)
  {
    forall i :: 0 <= i < |s| ==> '0' <= s[i] <= '9'
  }

  /** The number a string of decimal digits spells, most significant digit first. */
  function DigitsValue(s: string): nat
    requires IsDigits(s)
  {
    if s == [] then 0 else DigitsValue(s[..|s| - 1]) * 10 + DigitValue(s[|s| - 1])
  }

  /** A digit string in the form a number prints as: "0", or no leading zero. */
  predicate Canonical(s: string)
  {
    s != [] && IsDigits(s) && (|s| == 1 || s[0] != '0')
  }

  /** The decimal spelling of a non-negative integer, as a template literal prints it. */
  function DecimalString(n: nat): (s: string)
    ensures Canonical(s)
    ensures DigitsValue(s) == n
    ensures n >= 1 ==> s[0] != '0'
    ensures n >= 10 <==> |s| >= 2
  {
    if n < 10 then [DigitChar(n)]
    else
      var init := DecimalString(n / 10);
      var s := init + [DigitChar(n % 10)];
      assert s[..|s| - 1] == init;
      s
  }

  /** A digit string without a leading zero that is not just "0" is worth at least one. */
  lemma {:induction false} LeadingDigitPositive(s: string)
    requires IsDigits(s) && s != [] && s[0] != '0'
    ensures DigitsValue(s) >= 1
    decreases |s|
  {
    if |s| > 1 {
      var init := s[..|s| - 1];
      assert init[0] == s[0];
      LeadingDigitPositive(init);
    }
  }

  /** DecimalString is the only canonical spelling of a number. */
  lemma {:induction false} DecimalStringUnique(s: string, n: nat)
    requires Canonical(s) && DigitsValue(s) == n
    ensures s == DecimalString(n)
    decreases |s|
  {
    var last := DigitValue(s[|s| - 1]);
    var init := s[..|s| - 1];
    if |s| == 1 {
      assert n == last;
      assert DecimalString(n) == [DigitChar(n)];
    } else {
      assert init[0] == s[0];
      LeadingDigitPositive(init);
      var m := DigitsValue(init);
      assert n == m * 10 + last;
      assert n / 10 == m && n % 10 == last;
      DecimalStringUnique(init, m);
      var t := DecimalString(n);
      assert t == DecimalString(n / 10) + [DigitChar(n % 10)];
      assert s == init + [s[|s| - 1]];
    }
  }

  /** The order number submitOrder derives from the clock reading `nowMillis`. */
  function OrderNumber(nowMillis: nat): (s: string)
    ensures |s| > 4 && s[..4] == "ORD-"
    ensures Canonical(s[4..]) && DigitsValue(s[4..]) == nowMillis
  {
    var s := "ORD-" + DecimalString(nowMillis);
    assert s[4..] == DecimalString(nowMillis);
    s
  }

  /** Different clock readings give different order numbers. */
  lemma OrderNumberInjective(a: nat, b: nat)
    requires OrderNumber(a) == OrderNumber(b)
    ensures a == b
  {
  }

  // ---------------------------------------------------------------------
  // submitOrder

  /** `newOrder.items.map(...)`: one order_items row per cart line. */
  function OrderItemsFor(lines: seq<Line>, orderId: int): (r: seq<OrderItem>)
    ensures |r| == |lines|
    ensures forall i :: 0 <= i < |lines| ==>
      r[i].orderId == orderId && r[i].menuId == lines[i].menuId &&
      r[i].quantity == lines[i].quantity && r[i].unitPrice == lines[i].unitPrice
  {
    seq(|lines|, i requires 0 <= i < |lines| =>
      OrderItem(orderId, lines[i].menuId, lines[i].quantity, lines[i].unitPrice))
  }

  /**
   * submitOrder on a form holding `customerName`, `lines` and `payment`: an
   * empty cart is refused before anything is created; otherwise the order
   * row gets the generated number, the customer name (or the walk-in
   * default), the payment method and status pending, and its items copy the
   * cart line by line. `orderId` is the id the backend assigns on insert.
   */
  function PlaceOrder(customerName: string, lines: seq<Line>, payment: PaymentMethod,
                      orderId: int, nowMillis: nat): (r: Result<Order, SubmitError>)
    ensures r.Failure? <==> lines == []
    ensures r.Failure? ==> r.error == EmptyOrder
    ensures r.Success? ==>
      && r.value.orderId == orderId
      && r.value.orderNumber == OrderNumber(nowMillis)
      && r.value.customerName == (if customerName == "" then WalkInCustomer else customerName)
      && r.value.customerName != ""
      && r.value.paymentMethod == payment
      && r.value.status == Pending
      && r.value.completedAt == None
      && |r.value.items| == |lines|
      && (forall i :: 0 <= i < |lines| ==>
            r.value.items[i] == OrderItem(orderId, lines[i].menuId, lines[i].quantity, lines[i].unitPrice))
  {
    if |lines| == 0 then Failure(EmptyOrder)
    else
      Success(Order(orderId, OrderNumber(nowMillis),
                    if customerName == "" then WalkInCustomer else customerName,
                    payment, Pending, None, OrderItemsFor(lines, orderId)))
  }

  /** Quantity times unit price summed over order item rows, in row order. */
  function ItemsTotal(items: seq<OrderItem>): real
  {
    if items == [] then 0.0
    else ItemsTotal(items[..|items| - 1]) + items[|items| - 1].quantity as real * items[|items| - 1].unitPrice
  }

  /** The submitted rows are worth exactly what calculateTotal showed for the cart. */
  lemma {:induction false} SubmittedTotalMatchesCart(lines: seq<Line>, orderId: int)
    ensures ItemsTotal(OrderItemsFor(lines, orderId)) == Total(lines)
  {
    if lines != [] {
      var n := |lines| - 1;
      var r := OrderItemsFor(lines, orderId);
      assert r[..n] == OrderItemsFor(lines[..n], orderId);
      SubmittedTotalMatchesCart(lines[..n], orderId);
    }
  }

  // ---------------------------------------------------------------------
  // Status workflow

  /**
   * The status buttons an order card shows, in screen order: "Start
   * Preparing" and "Cancel" on a pending order, "Mark Complete" on one
   * being prepared, nothing otherwise.
   */
  function Actions(s: Status): (r: seq<Status>)
    ensures forall t :: t in r <==>
      (s == Pending && (t == Preparing || t == Cancelled)) || (s == Preparing && t == Completed)
    ensures s == Completed || s == Cancelled ==> r == []
    ensures forall t :: t in r ==> Stage(t) > Stage(s)
  {
    match s
    case Pending => [Preparing, Cancelled]
    case Preparing => [Completed]
    case Completed => []
    case Cancelled => []
  }

  /**
   * updateOrderStatus on one order: the status becomes `newStatus`, and
   * completed_at is set to `now` only when the new status is completed;
   * any other update leaves completed_at as it was. Nothing else changes.
   */
  function UpdateStatus(o: Order, newStatus: Status, now: string): (r: Order)
    ensures r.status == newStatus
    ensures newStatus == Completed ==> r.completedAt == Some(now)
    ensures newStatus != Completed ==> r.completedAt == o.completedAt
    ensures r.(status := o.status, completedAt := o.completedAt) == o
  {
    if newStatus == Completed then o.(status := newStatus, completedAt := Some(now))
    else o.(status := newStatus)
  }

  /** An order carries a completion time exactly when it is completed. */
  ghost predicate CompletionConsistent(o: Order)
  {
    o.completedAt.Some? <==> o.status == Completed
  }

  /** How far along the workflow a status is; every offered button moves strictly forward. */
  function Stage(s: Status): (n: nat)
    ensures n <= 2
    ensures n == 2 <==> s == Completed || s == Cancelled
  {
    match s
    case Pending => 0
    case Preparing => 1
    case Completed => 2
    case Cancelled => 2
  }

  /** One press of a status button, with the time the press happens. */
  datatype Click = Click(target: Status, at: string)

  /** A sequence of presses; a press on a button the card does not show has no effect. */
  function ClickButtons(o: Order, clicks: seq<Click>): (r: Order)
    ensures r == o || Stage(r.status) > Stage(o.status)
    decreases |clicks|
  {
    if clicks == [] then o
    else
      var o' := if clicks[0].target in Actions(o.status) then UpdateStatus(o, clicks[0].target, clicks[0].at) else o;
      ClickButtons(o', clicks[1..])
  }

  /**
   * Driven through its buttons, an order keeps completion time and status in
   * step, never moves backwards, changes nothing but status and completion
   * time, and stays put once completed or cancelled.
   */
  lemma {:induction false} ButtonsKeepOrderConsistent(o: Order, clicks: seq<Click>)
    requires CompletionConsistent(o)
    ensures CompletionConsistent(ClickButtons(o, clicks))
    ensures Stage(ClickButtons(o, clicks).status) >= Stage(o.status)
    ensures ClickButtons(o, clicks).(status := o.status, completedAt := o.completedAt) == o
    ensures o.status == Completed || o.status == Cancelled ==> ClickButtons(o, clicks) == o
    decreases |clicks|
  {
    if clicks != [] {
      var o' := if clicks[0].target in Actions(o.status) then UpdateStatus(o, clicks[0].target, clicks[0].at) else o;
      ButtonsKeepOrderConsistent(o', clicks[1..]);
    }
  }

  /**
   * Presses on a card that has not been refreshed yet: every press is checked
   * against the buttons of the status `card` the card was drawn with, and
   * updateOrderStatus writes it whatever the order's status is by then.
   */
  function PressOnStaleCard(o: Order, card: Status, clicks: seq<Click>): (r: Order)
    ensures r == o || r.status in Actions(card)
    ensures r.(status := o.status, completedAt := o.completedAt) == o
    ensures (forall i :: 0 <= i < |clicks| ==> clicks[i].target !in Actions(card)) ==> r == o
    ensures clicks != [] && clicks[0].target !in Actions(card) ==> r == PressOnStaleCard(o, card, clicks[1..])
    decreases |clicks|
  {
    if clicks == [] then o
    else
      var o' := if clicks[0].target in Actions(card) then UpdateStatus(o, clicks[0].target, clicks[0].at) else o;
      PressOnStaleCard(o', card, clicks[1..])
  }

  /**
   * What still holds for presses on one card before its refresh: completion
   * time and status stay in step, only status and completion time change,
   * the status is one the card offered, and the last offered press wins.
   */
  lemma {:induction false} StaleCardKeepsConsistent(o: Order, card: Status, clicks: seq<Click>)
    requires CompletionConsistent(o)
    requires o.status == card || o.status in Actions(card)
    ensures CompletionConsistent(PressOnStaleCard(o, card, clicks))
    ensures PressOnStaleCard(o, card, clicks).(status := o.status, completedAt := o.completedAt) == o
    ensures PressOnStaleCard(o, card, clicks).status == o.status ||
            PressOnStaleCard(o, card, clicks).status in Actions(card)
    ensures clicks != [] && clicks[|clicks| - 1].target in Actions(card) ==>
            PressOnStaleCard(o, card, clicks).status == clicks[|clicks| - 1].target
    decreases |clicks|
  {
    if clicks != [] {
      var o' := if clicks[0].target in Actions(card) then UpdateStatus(o, clicks[0].target, clicks[0].at) else o;
      var rest := clicks[1..];
      assert PressOnStaleCard(o, card, clicks) == PressOnStaleCard(o', card, rest);
      StaleCardKeepsConsistent(o', card, rest);
      if |clicks| > 1 {
        assert rest[|rest| - 1] == clicks[|clicks| - 1];
      }
    }
  }

  /**
   * On a pending card, "Cancel" and then "Start Preparing" before the refresh
   * leave a cancelled order preparing again; with the refresh in between the
   * second press finds no button and the order stays cancelled.
   */
  lemma StaleCardMovesBack(o: Order)
    requires o.status == Pending
    ensures PressOnStaleCard(o, Pending, [Click(Cancelled, "t1")]).status == Cancelled
    ensures PressOnStaleCard(o, Pending, [Click(Cancelled, "t1"), Click(Preparing, "t2")]).status == Preparing
    ensures ClickButtons(o, [Click(Cancelled, "t1"), Click(Preparing, "t2")]).status == Cancelled
  {
  }

  /** A freshly submitted order starts consistent: pending, with no completion time. */
  lemma PlacedOrderIsConsistent(customerName: string, lines: seq<Line>, payment: PaymentMethod,
                                orderId: int, nowMillis: nat)
    requires lines != []
    ensures CompletionConsistent(PlaceOrder(customerName, lines, payment, orderId, nowMillis).value)
  {
  }

  // ---------------------------------------------------------------------
  // Stateful screen parts

  /** The orders table as the order screen sees it, in insertion order. */
  class OrderBoard {
    var orders: seq<Order>

    constructor ()
      ensures orders == []
    {
      orders := [];
    }

    /**
     * updateOrderStatus(orderId, newStatus): every order with this id gets
     * the new status (and, for completed, the completion time); the others
     * are untouched. The function itself does not check the transition;
     * only the buttons offered by Actions restrict it.
     */
    method UpdateOrderStatus(orderId: int, newStatus: Status, now: string)
      modifies this
      ensures |orders| == |old(orders)|
      ensures forall i :: 0 <= i < |orders| ==>
        orders[i] == if old(orders)[i].orderId == orderId then UpdateStatus(old(orders)[i], newStatus, now) else old(orders)[i]
    {
      orders := seq(|orders|, i requires 0 <= i < |orders| reads this =>
        if orders[i].orderId == orderId then UpdateStatus(orders[i], newStatus, now) else orders[i]);
    }
  }

  /** The newOrder state of the screen: customer name, cart and payment method. */
  class NewOrderForm {
    var customerName: string
    var items: seq<Line>
    var paymentMethod: PaymentMethod

    ghost predicate Valid()
      reads this
    {
      ValidCart(items)
    }

    /** The initial (and post-submit) form: no name, no items, cash. */
    constructor ()
      ensures Valid()
      ensures customerName == "" && items == [] && paymentMethod == Cash
    {
      customerName, items, paymentMethod := "", [], Cash;
    }

    method AddItemToOrder(m: MenuItem)
      requires Valid()
      modifies this
      ensures Valid()
      ensures items == AddItem(old(items), m)
      ensures customerName == old(customerName) && paymentMethod == old(paymentMethod)
      ensures !HasItem(old(items), m.menuId) ==> Total(items) == old(Total(items)) + m.sellingPrice
      ensures forall k :: 0 <= k < |old(items)| && old(items)[k].menuId == m.menuId ==>
        Total(items) == old(Total(items)) + old(items)[k].unitPrice
    {
      AddItemKeepsValid(items, m);
      if !HasItem(items, m.menuId) {
        AddNewRaisesTotal(items, m);
      }
      forall k | 0 <= k < |items| && items[k].menuId == m.menuId
        ensures Total(AddItem(items, m)) == Total(items) + items[k].unitPrice
      {
        AddExistingRaisesTotal(items, m, k);
      }
      items := AddItem(items, m);
    }

    method UpdateQuantity(menuId: int, change: int)
      requires Valid()
      modifies this
      ensures Valid()
      ensures items == Cart.UpdateQuantity(old(items), menuId, change)
      ensures customerName == old(customerName) && paymentMethod == old(paymentMethod)
      ensures (change == 1 || change == -1) ==>
        forall k :: 0 <= k < |old(items)| && old(items)[k].menuId == menuId ==>
          Total(items) ==
            if change == 1 then old(Total(items)) + old(items)[k].unitPrice
            else if old(items)[k].quantity > 1 then old(Total(items)) - old(items)[k].unitPrice
            else old(Total(items))
    {
      UpdateQuantityKeepsValid(items, menuId, change);
      if change == 1 || change == -1 {
        forall k | 0 <= k < |items| && items[k].menuId == menuId
          ensures Total(Cart.UpdateQuantity(items, menuId, change)) ==
            if change == 1 then Total(items) + items[k].unitPrice
            else if items[k].quantity > 1 then Total(items) - items[k].unitPrice
            else Total(items)
        {
          QuantityButtonsTotal(items, k, change);
        }
      }
      items := Cart.UpdateQuantity(items, menuId, change);
    }

    method RemoveItem(menuId: int)
      requires Valid()
      modifies this
      ensures Valid()
      ensures items == Cart.RemoveItem(old(items), menuId)
      ensures customerName == old(customerName) && paymentMethod == old(paymentMethod)
      ensures !HasItem(old(items), menuId) ==> items == old(items)
      ensures forall k :: 0 <= k < |old(items)| && old(items)[k].menuId == menuId ==>
        |items| == |old(items)| - 1 && Total(items) == old(Total(items)) - Amount(old(items)[k])
    {
      RemoveKeepsValid(items, menuId);
      if !HasItem(items, menuId) {
        RemoveAbsentIsIdentity(items, menuId);
      }
      forall k | 0 <= k < |items| && items[k].menuId == menuId
        ensures |Cart.RemoveItem(items, menuId)| == |items| - 1
        ensures Total(Cart.RemoveItem(items, menuId)) == Total(items) - Amount(items[k])
      {
        RemovePresentDropsOne(items, k);
      }
      items := Cart.RemoveItem(items, menuId);
    }

    /** calculateTotal: the reduce over the current items, accumulated left to right. */
    method CalculateTotal() returns (total: real)
      ensures total == Total(items)
    {
      total := 0.0;
      for i := 0 to |items|
        invariant total == Total(items[..i])
      {
        assert items[..i + 1][..i] == items[..i];
        total := total + items[i].quantity as real * items[i].unitPrice;
      }
      assert items[..|items|] == items;
    }

    /**
     * submitOrder: refuses an empty cart and leaves the form as it was;
     * otherwise inserts the order into `board` and resets the form.
     * The backend's insert results (`orderId`) and the clock are parameters.
     */
    method SubmitOrder(board: OrderBoard, orderId: int, nowMillis: nat) returns (r: Result<Order, SubmitError>)
      requires Valid()
      modifies this, board
      ensures Valid()
      ensures r == PlaceOrder(old(customerName), old(items), old(paymentMethod), orderId, nowMillis)
      ensures r.Failure? ==>
        customerName == old(customerName) && items == old(items) && paymentMethod == old(paymentMethod) &&
        board.orders == old(board.orders)
      ensures r.Success? ==>
        customerName == "" && items == [] && paymentMethod == Cash &&
        board.orders == old(board.orders) + [r.value]
    {
      r := PlaceOrder(customerName, items, paymentMethod, orderId, nowMillis);
      if r.Success? {
        board.orders := board.orders + [r.value];
        customerName, items, paymentMethod := "", [], Cash;
      }
    }
  }
}
