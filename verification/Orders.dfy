/** Orders and fills (engine/include/orderbook/order.hpp) and the flat view of one side of the
    book: a sequence of resting orders in priority order. */
module Orders {

  const TWO_32: nat := 0x1_0000_0000

  datatype Option<+T> = None | Some(value: T)

  datatype Side = Buy | Sell {
    function Opposite(): Side {
      if this == Buy then Sell else Buy
    }
  }

  datatype OrderType = Limit | Market

  datatype Order = Order(id: nat, side: Side, orderType: OrderType, price: int, quantity: nat, timestamp: nat)

  datatype Fill = Fill(restingId: nat, incomingId: nat, restingSide: Side, price: int, quantity: nat, timestamp: nat)

  function Min(a: int, b: int): int {
    if a <= b then a else b
  }

  function Max(a: int, b: int): int {
    if a <= b then b else a
  }

  /** Price p has priority over price q among the resting orders of side s. */
  predicate Better(s: Side, p: int, q: int) {
    if s == Buy then p > q else p < q
  }

  /** The incoming order o may trade at the given resting price. */
  predicate Crosses(o: Order, price: int) {
    o.orderType == Market || (if o.side == Buy then o.price >= price else o.price <= price)
  }

  lemma TakeSnoc<T>(s: seq<T>, i: nat)
    requires i < |s|
    ensures s[..i + 1] == s[..i] + [s[i]]
  {
  }

  lemma TakeAll<T>(s: seq<T>)
    ensures s[..|s|] == s
  {
  }

  function Ids(orders: seq<Order>): set<nat> {
    set o | o in orders :: o.id
  }

  function Prices(orders: seq<Order>): set<int> {
    set o | o in orders :: o.price
  }

  ghost predicate DistinctIds(orders: seq<Order>) {
    forall i, j :: 0 <= i < j < |orders| ==> orders[i].id != orders[j].id
  }

  predicate Precedes(s: Side, a: Order, b: Order) {
    Better(s, a.price, b.price) || (a.price == b.price && a.timestamp < b.timestamp)
  }

  /** Price priority, then strictly increasing arrival stamps within a price. */
  ghost predicate InPriority(s: Side, orders: seq<Order>) {
    forall i, j :: 0 <= i < j < |orders| ==> Precedes(s, orders[i], orders[j])
  }

  /** What every order resting on side s satisfies, stamps being below next. */
  ghost predicate Resting(s: Side, orders: seq<Order>, next: nat) {
    forall i :: 0 <= i < |orders| ==>
      && orders[i].side == s
      && orders[i].orderType == Limit
      && orders[i].quantity > 0
      && orders[i].timestamp < next
  }

  ghost predicate ValidSide(s: Side, orders: seq<Order>, next: nat) {
    Resting(s, orders, next) && InPriority(s, orders) && DistinctIds(orders)
  }

  lemma IdsAppend(a: seq<Order>, b: seq<Order>)
    ensures Ids(a + b) == Ids(a) + Ids(b)
    ensures Prices(a + b) == Prices(a) + Prices(b)
  {
    assert forall o :: o in a + b <==> o in a || o in b;
  }

  /** An order in front of a valid list that it precedes. */
  lemma ValidCons(s: Side, head: Order, tail: seq<Order>, next: nat)
    requires ValidSide(s, tail, next) && Resting(s, [head], next)
    requires forall x :: x in tail ==> Precedes(s, head, x) && head.id != x.id
    ensures ValidSide(s, [head] + tail, next)
  {
    var r := [head] + tail;
    assert r[0] == head;
    forall i | 1 <= i < |r| ensures r[i] == tail[i - 1] && r[i] in tail {
    }
  }

  /** The same read backwards. */
  lemma ValidUncons(s: Side, orders: seq<Order>, next: nat)
    requires ValidSide(s, orders, next) && orders != []
    ensures ValidSide(s, orders[1..], next) && Resting(s, [orders[0]], next)
    ensures forall x :: x in orders[1..] ==> Precedes(s, orders[0], x) && orders[0].id != x.id
    ensures orders[0].id !in Ids(orders[1..])
  {
  }

  /** Ids and prices, head first. */
  lemma IdsCons(orders: seq<Order>)
    requires orders != []
    ensures Ids(orders) == {orders[0].id} + Ids(orders[1..])
    ensures Prices(orders) == {orders[0].price} + Prices(orders[1..])
  {
    assert orders == [orders[0]] + orders[1..];
    IdsAppend([orders[0]], orders[1..]);
  }

  lemma ValidLater(s: Side, orders: seq<Order>, next: nat, later: nat)
    requires ValidSide(s, orders, next) && next <= later
    ensures ValidSide(s, orders, later)
  {
  }

  /** Total quantity of a list of orders. */
  function Quantity(orders: seq<Order>): nat {
    if orders == [] then 0 else orders[0].quantity + Quantity(orders[1..])
  }

  lemma {:induction false} QuantityAppend(a: seq<Order>, b: seq<Order>)
    ensures Quantity(a + b) == Quantity(a) + Quantity(b)
  {
    if a == [] {
      assert a + b == b;
    } else {
      assert (a + b)[1..] == a[1..] + b;
      QuantityAppend(a[1..], b);
    }
  }

  /** Total quantity resting at one price. */
  function QuantityAt(orders: seq<Order>, price: int): nat {
    if orders == [] then 0
    else (if orders[0].price == price then orders[0].quantity else 0) + QuantityAt(orders[1..], price)
  }

  /** Total quantity of a list of fills. */
  function Volume(fills: seq<Fill>): nat {
    if fills == [] then 0 else fills[0].quantity + Volume(fills[1..])
  }

  lemma {:induction false} VolumeAppend(a: seq<Fill>, b: seq<Fill>)
    ensures Volume(a + b) == Volume(a) + Volume(b)
  {
    if a == [] {
      assert a + b == b;
    } else {
      assert (a + b)[1..] == a[1..] + b;
      VolumeAppend(a[1..], b);
    }
  }
}
