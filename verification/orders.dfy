/**
 * Turning the cart into orders: `checkout` and the POST branch of `payment` both
 * create, for each restaurant group in dict order, one pending order whose total
 * is the group's sum of price × quantity and one order item per cart line, and then
 * empty the cart. The database is not modelled: the created orders are returned as
 * a sequence, each order carrying its items (the items' `order_id` link).
 */
module Orders {
  import opened Wrappers
  import opened Cart

  /** The only status this flow gives an order. */
  const PENDING: string := "pending"

  /** An order item row: the menu item, quantity and unit price copied from a cart line. */
  datatype OrderItem = OrderItem(menuId: int, quantity: int, price: int)

  /** An order row together with the item rows that reference it. */
  datatype Order = Order(customerId: int, restaurantId: int, totalPrice: int, status: string, items: seq<OrderItem>)

  /** Why a checkout was turned away: the route flashes "Your cart is empty." and redirects to the cart. */
  datatype Refusal = CartIsEmpty

  /** The session cart after the request, the orders it created and the refusal, if any. */
  datatype CheckoutResult = CheckoutResult(cart: Cart, orders: seq<Order>, refusal: Option<Refusal>)

  /** The order item made from one cart line. */
  function ItemOf(l: CartLine): OrderItem {
    OrderItem(l.id, l.quantity, l.price)
  }

  /** The item rows of one group, one per line in line order. */
  function ItemsOf(ls: seq<CartLine>): (items: seq<OrderItem>)
    ensures |items| == |ls|
    ensures forall j :: 0 <= j < |ls| ==>
      items[j].menuId == ls[j].id && items[j].quantity == ls[j].quantity && items[j].price == ls[j].price
  {
    seq(|ls|, j requires 0 <= j < |ls| => ItemOf(ls[j]))
  }

  /** Sum of price × quantity over item rows. */
  function ItemsTotal(items: seq<OrderItem>): int {
    if |items| == 0 then 0
    else ItemsTotal(items[..|items| - 1]) + items[|items| - 1].price * items[|items| - 1].quantity
  }

  /** The item rows of a group add up to the group's total. */
  lemma {:induction false} ItemsTotalOfLines(ls: seq<CartLine>)
    ensures ItemsTotal(ItemsOf(ls)) == LinesTotal(ls)
  {
    if |ls| > 0 {
      var items := ItemsOf(ls);
      ItemsTotalOfLines(ls[..|ls| - 1]);
      assert items[..|items| - 1] == ItemsOf(ls[..|ls| - 1]);
    }
  }

  /**
   * The order created for one restaurant group: pending, for the group's restaurant,
   * with one item per line, and a total that agrees with its own items.
   */
  function OrderFor(customerId: int, g: Group): (o: Order)
    ensures o.customerId == customerId && o.restaurantId == g.rid && o.status == PENDING
    ensures |o.items| == |g.lines|
    ensures forall j :: 0 <= j < |g.lines| ==> o.items[j] == OrderItem(g.lines[j].id, g.lines[j].quantity, g.lines[j].price)
    ensures o.totalPrice == ItemsTotal(o.items) == LinesTotal(g.lines)
  {
    ItemsTotalOfLines(g.lines);
    Order(customerId, g.rid, LinesTotal(g.lines), PENDING, ItemsOf(g.lines))
  }

  /**
   * The loop shared by `checkout` and `payment`: one pending order per group, in dict
   * order, whose restaurant is the group's key and whose total is the group's sum,
   * with one item per line copying id, quantity and price.
   */
  function Materialise(gs: seq<Group>, customerId: int): (os: seq<Order>)
    ensures |os| == |gs|
    ensures forall i :: 0 <= i < |gs| ==>
      && os[i].customerId == customerId
      && os[i].restaurantId == gs[i].rid
      && os[i].status == PENDING
      && os[i].totalPrice == LinesTotal(gs[i].lines)
      && |os[i].items| == |gs[i].lines|
    ensures forall i, j :: 0 <= i < |gs| && 0 <= j < |gs[i].lines| ==>
      && os[i].items[j].menuId == gs[i].lines[j].id
      && os[i].items[j].quantity == gs[i].lines[j].quantity
      && os[i].items[j].price == gs[i].lines[j].price
  {
    if |gs| == 0 then []
    else Materialise(gs[..|gs| - 1], customerId) + [OrderFor(customerId, gs[|gs| - 1])]
  }

  /** Both routes end a successful materialisation the same way: one order per group, cart emptied, no refusal. */
  function PlaceOrders(c: Cart, customerId: int): (r: CheckoutResult)
    ensures r.refusal.None? && r.cart.groups == []
    ensures |r.orders| == |c.groups|
    ensures forall i :: 0 <= i < |c.groups| ==> r.orders[i] == OrderFor(customerId, c.groups[i])
  {
    var r := CheckoutResult(EmptyCart, Materialise(c.groups, customerId), None);
    assert forall i :: 0 <= i < |c.groups| ==> r.orders[i] == OrderFor(customerId, c.groups[i]) by {
      forall i | 0 <= i < |c.groups|
        ensures r.orders[i] == OrderFor(customerId, c.groups[i])
      {
        assert r.orders[i].items == ItemsOf(c.groups[i].lines);
      }
    }
    r
  }

  /**
   * `checkout`: refused, with the cart untouched and no orders, when the cart has no
   * groups; otherwise one order per group and an empty cart.
   */
  function Checkout(c: Cart, customerId: int): (r: CheckoutResult)
    ensures r.refusal.Some? <==> |c.groups| == 0
    ensures r.refusal.Some? ==> r.cart == c && r.orders == []
    ensures r.refusal.None? ==> r.cart.groups == [] && |r.orders| == |c.groups|
    ensures r.refusal.None? ==> forall i :: 0 <= i < |c.groups| ==> r.orders[i] == OrderFor(customerId, c.groups[i])
  {
    if |c.groups| == 0 then CheckoutResult(c, [], Some(CartIsEmpty))
    else PlaceOrders(c, customerId)
  }

  /**
   * The POST branch of `payment`: refused when the cart total is 0, which also turns
   * away a non-empty cart of zero-priced lines; otherwise the same materialisation
   * as `checkout`.
   */
  function Payment(c: Cart, customerId: int): (r: CheckoutResult)
    ensures r.refusal.Some? <==> CartTotal(c) == 0
    ensures r.refusal.Some? ==> r.cart == c && r.orders == []
    ensures r.refusal.None? ==> r.cart.groups == [] && r.orders == Checkout(c, customerId).orders
  {
    if CartTotal(c) == 0 then CheckoutResult(c, [], Some(CartIsEmpty))
    else
      CartTotalIsSumOverAllLines(c.groups);
      PlaceOrders(c, customerId)
  }

  /** Sum of the orders' totals. */
  function OrdersTotal(os: seq<Order>): int {
    if |os| == 0 then 0 else OrdersTotal(os[..|os| - 1]) + os[|os| - 1].totalPrice
  }

  /** Number of item rows over all orders. */
  function ItemCount(os: seq<Order>): nat {
    if |os| == 0 then 0 else ItemCount(os[..|os| - 1]) + |os[|os| - 1].items|
  }

  /** Materialisation neither creates nor loses money or lines: totals and line counts carry over. */
  lemma {:induction false} MaterialiseConserves(gs: seq<Group>, customerId: int)
    ensures OrdersTotal(Materialise(gs, customerId)) == GroupsTotal(gs)
    ensures ItemCount(Materialise(gs, customerId)) == |AllLines(gs)|
  {
    if |gs| > 0 {
      var os := Materialise(gs, customerId);
      MaterialiseConserves(gs[..|gs| - 1], customerId);
      assert os[..|os| - 1] == Materialise(gs[..|gs| - 1], customerId);
    }
  }

  /** A checkout's orders add up to the cart total it replaced; a refused checkout makes none and the cart's total is 0. */
  lemma CheckoutConservesTotal(c: Cart, customerId: int)
    ensures OrdersTotal(Checkout(c, customerId).orders) == CartTotal(c)
  {
    MaterialiseConserves(c.groups, customerId);
  }

  /** On a valid cart every created order has at least one item and every item a quantity of at least 1. */
  lemma CheckoutOrdersNonEmpty(c: Cart, customerId: int)
    requires Valid(c)
    ensures forall o :: o in Checkout(c, customerId).orders ==> |o.items| > 0
    ensures forall o, it :: o in Checkout(c, customerId).orders && it in o.items ==> it.quantity >= 1
  {
    var os := Checkout(c, customerId).orders;
    forall o, it | o in os && it in o.items
      ensures it.quantity >= 1
    {
      var i :| 0 <= i < |os| && os[i] == o;
      var j :| 0 <= j < |o.items| && o.items[j] == it;
      assert it.quantity == c.groups[i].lines[j].quantity;
    }
  }

  /** Whenever the cart total is not 0 the two entry points behave identically. */
  lemma PaymentAgreesWithCheckout(c: Cart, customerId: int)
    requires CartTotal(c) != 0
    ensures Payment(c, customerId) == Checkout(c, customerId)
  {
    CartTotalIsSumOverAllLines(c.groups);
  }

  /** A cart holding only a zero-priced line is accepted by `checkout` but refused by `payment`. */
  lemma ZeroPricedCartSplitsRoutes()
    ensures var c := Cart([Group(4, [CartLine(11, "Water", 0, 2, "Cafe")])]);
      && Checkout(c, 1).refusal.None? && |Checkout(c, 1).orders| == 1
      && Payment(c, 1).refusal.Some? && Payment(c, 1).cart == c
  {
    var c := Cart([Group(4, [CartLine(11, "Water", 0, 2, "Cafe")])]);
    var ls := c.groups[0].lines;
    assert LinesTotal(ls) == LinesTotal(ls[..0]) + 0;
    assert GroupsTotal(c.groups) == GroupsTotal(c.groups[..0]) + LinesTotal(ls);
  }

  /** The two-restaurant example: one order per group, totals 20 and 5, one item each, cart emptied. */
  lemma TwoRestaurantCheckout()
    ensures var c := Cart([Group(1, [CartLine(1, "Kebab", 10, 2, "R1")]), Group(2, [CartLine(2, "Salad", 5, 1, "R2")])]);
      var r := Checkout(c, 42);
      && r.refusal.None? && r.cart == EmptyCart && |r.orders| == 2
      && r.orders[0] == Order(42, 1, 20, PENDING, [OrderItem(1, 2, 10)])
      && r.orders[1] == Order(42, 2, 5, PENDING, [OrderItem(2, 1, 5)])
  {
    var c := Cart([Group(1, [CartLine(1, "Kebab", 10, 2, "R1")]), Group(2, [CartLine(2, "Salad", 5, 1, "R2")])]);
    var l1 := c.groups[0].lines;
    var l2 := c.groups[1].lines;
    assert LinesTotal(l1) == LinesTotal(l1[..0]) + 20;
    assert LinesTotal(l2) == LinesTotal(l2[..0]) + 5;
    assert ItemsOf(l1) == [OrderItem(1, 2, 10)];
    assert ItemsOf(l2) == [OrderItem(2, 1, 5)];
  }
}
