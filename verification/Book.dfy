/** The abstract order book: both sides as flat priority lists and the stamp counter. Every run of
    submit and cancel keeps it valid. */
module BookSpec {
  import opened Orders
  import opened Matching

  datatype Book = Book(bids: seq<Order>, asks: seq<Order>, next: nat) {
    function On(s: Side): seq<Order> {
      if s == Buy then bids else asks
    }

    function With(s: Side, orders: seq<Order>): Book {
      if s == Buy then this.(bids := orders) else this.(asks := orders)
    }

    function RestingIds(): set<nat> {
      Ids(bids) + Ids(asks)
    }

    ghost predicate Valid() {
      && ValidSide(Buy, bids, next)
      && ValidSide(Sell, asks, next)
      && Ids(bids) !! Ids(asks)
      && forall p, q :: p in Prices(bids) && q in Prices(asks) ==> p < q
    }
  }

  const EmptyBook := Book([], [], 0)

  /** The list with o behind every order whose price is at least as good. */
  function Insert(s: Side, orders: seq<Order>, o: Order): (r: seq<Order>)
    ensures |r| == |orders| + 1
  {
    if orders == [] || Better(s, o.price, orders[0].price) then [o] + orders
    else [orders[0]] + Insert(s, orders[1..], o)
  }

  /** The list without the first order that has this id. */
  function Remove(orders: seq<Order>, id: nat): seq<Order> {
    if orders == [] then []
    else if orders[0].id == id then orders[1..]
    else [orders[0]] + Remove(orders[1..], id)
  }

  /** Matching the order, stamped on arrival, against the opposite side. */
  function Trades(b: Book, o: Order): Outcome {
    Match(b.On(o.side.Opposite()), o.(timestamp := b.next), b.next + 1)
  }

  /** The book once matching is over; the arrival and every fill took a stamp. */
  function Matched(b: Book, o: Order): Book {
    var m := Trades(b, o);
    b.With(o.side.Opposite(), m.rest).(next := b.next + 1 + |m.fills|)
  }

  /** What is left of the order. */
  function Remainder(b: Book, o: Order): Order {
    o.(timestamp := b.next, quantity := Trades(b, o).left)
  }

  /** A limit order's remainder rests, a market order's is dropped; an id that rests is refused. */
  function Submit(b: Book, o: Order): (Book, seq<Fill>) {
    if o.id in b.RestingIds() then (b, [])
    else
      var r, matched := Remainder(b, o), Matched(b, o);
      if r.quantity > 0 && r.orderType == Limit
      then (matched.With(r.side, Insert(r.side, matched.On(r.side), r)), Trades(b, o).fills)
      else (matched, Trades(b, o).fills)
  }

  function Cancel(b: Book, id: nat): (Book, bool) {
    if id in Ids(b.bids) then (b.(bids := Remove(b.bids, id)), true)
    else if id in Ids(b.asks) then (b.(asks := Remove(b.asks, id)), true)
    else (b, false)
  }

  datatype Command = SubmitOrder(order: Order) | CancelOrder(id: nat)

  function Step(b: Book, c: Command): (Book, seq<Fill>) {
    match c
    case SubmitOrder(o) => Submit(b, o)
    case CancelOrder(id) => (Cancel(b, id).0, [])
  }

  /** The book and all fills after a run of commands. */
  function Run(b: Book, commands: seq<Command>): (Book, seq<Fill>)
    decreases |commands|
  {
    if commands == [] then (b, [])
    else
      var (b1, fills) := Step(b, commands[0]);
      var (b2, more) := Run(b1, commands[1..]);
      (b2, fills + more)
  }

  // ----- validity -----

  lemma {:induction false} InsertMembers(s: Side, orders: seq<Order>, o: Order)
    ensures forall x :: x in Insert(s, orders, o) <==> x == o || x in orders
  {
    if !(orders == [] || Better(s, o.price, orders[0].price)) {
      InsertMembers(s, orders[1..], o);
      assert orders == [orders[0]] + orders[1..];
    }
  }

  lemma InsertIds(s: Side, orders: seq<Order>, o: Order)
    ensures Ids(Insert(s, orders, o)) == Ids(orders) + {o.id}
    ensures Prices(Insert(s, orders, o)) == Prices(orders) + {o.price}
  {
    InsertMembers(s, orders, o);
    assert o in Insert(s, orders, o);
    assert forall x :: x in orders ==> x in Insert(s, orders, o);
  }

  lemma {:induction false} InsertKeepsSide(s: Side, orders: seq<Order>, o: Order, next: nat)
    requires ValidSide(s, orders, o.timestamp) && o.id !in Ids(orders)
    requires o.side == s && o.orderType == Limit && o.quantity > 0 && o.timestamp < next
    ensures ValidSide(s, Insert(s, orders, o), next)
  {
    ValidLater(s, orders, o.timestamp, next);
    if orders == [] || Better(s, o.price, orders[0].price) {
      forall x | x in orders ensures Precedes(s, o, x) && o.id != x.id {
        assert x.id in Ids(orders);
        var i :| 0 <= i < |orders| && orders[i] == x;
        assert i > 0 ==> Precedes(s, orders[0], orders[i]);
      }
      ValidCons(s, o, orders, next);
    } else {
      ValidUncons(s, orders, o.timestamp);
      ValidUncons(s, orders, next);
      IdsCons(orders);
      InsertKeepsSide(s, orders[1..], o, next);
      InsertMembers(s, orders[1..], o);
      assert orders[0].timestamp < o.timestamp;
      ValidCons(s, orders[0], Insert(s, orders[1..], o), next);
    }
  }

  lemma {:induction false} RemoveIds(s: Side, orders: seq<Order>, id: nat, next: nat)
    requires ValidSide(s, orders, next)
    ensures Ids(Remove(orders, id)) == Ids(orders) - {id}
    ensures Prices(Remove(orders, id)) <= Prices(orders)
  {
    if orders != [] {
      IdsCons(orders);
      ValidUncons(s, orders, next);
      if orders[0].id != id {
        RemoveIds(s, orders[1..], id, next);
        IdsAppend([orders[0]], Remove(orders[1..], id));
      }
    }
  }

  lemma {:induction false} RemoveMembers(orders: seq<Order>, id: nat)
    ensures forall x :: x in Remove(orders, id) ==> x in orders
  {
    if orders != [] && orders[0].id != id {
      RemoveMembers(orders[1..], id);
    }
  }

  lemma {:induction false} RemoveKeepsSide(s: Side, orders: seq<Order>, id: nat, next: nat)
    requires ValidSide(s, orders, next)
    ensures ValidSide(s, Remove(orders, id), next)
  {
    if orders != [] {
      ValidUncons(s, orders, next);
      if orders[0].id != id {
        RemoveKeepsSide(s, orders[1..], id, next);
        RemoveMembers(orders[1..], id);
        ValidCons(s, orders[0], Remove(orders[1..], id), next);
      }
    }
  }

  lemma {:induction false} RemoveAbsent(orders: seq<Order>, id: nat)
    requires id !in Ids(orders)
    ensures Remove(orders, id) == orders
  {
    if orders != [] {
      IdsCons(orders);
      RemoveAbsent(orders[1..], id);
      assert orders == [orders[0]] + orders[1..];
    }
  }

  lemma MatchedKeepsValid(b: Book, o: Order)
    requires b.Valid()
    ensures var c := Matched(b, o);
      && c.Valid() && c.RestingIds() <= b.RestingIds() && c.next > b.next
      && c.On(o.side) == b.On(o.side)
      && (Remainder(b, o).quantity > 0 ==> forall p :: p in Prices(c.On(o.side.Opposite())) ==> !Crosses(o, p))
  {
    var opp, m := o.side.Opposite(), Trades(b, o);
    var next := b.next + 1 + |m.fills|;
    MatchKeepsSide(opp, b.On(opp), o.(timestamp := b.next), b.next + 1, b.next);
    ValidLater(opp, m.rest, b.next, next);
    ValidLater(o.side, b.On(o.side), b.next, next);
    forall p | m.left > 0 && p in Prices(m.rest) ensures !Crosses(o, p) {
      assert !Crosses(o.(timestamp := b.next), p);
    }
  }

  lemma SubmitIds(b: Book, o: Order)
    requires b.Valid()
    ensures Submit(b, o).0.RestingIds() <= b.RestingIds() + {o.id}
  {
    MatchedKeepsValid(b, o);
    InsertIds(o.side, Matched(b, o).On(o.side), Remainder(b, o));
  }

  lemma SubmitKeepsValid(b: Book, o: Order)
    requires b.Valid()
    ensures Submit(b, o).0.Valid()
  {
    if o.id !in b.RestingIds() {
      MatchedKeepsValid(b, o);
      var r := Remainder(b, o);
      if r.quantity > 0 && r.orderType == Limit {
        assert forall p :: p in Prices(Matched(b, o).On(o.side.Opposite())) ==> !Crosses(o, p) && !Crosses(r, p);
        RestKeepsValid(Matched(b, o), r);
      }
    }
  }

  lemma RestPrices(b: Book, r: Order)
    requires b.Valid()
    requires forall p :: p in Prices(b.On(r.side.Opposite())) ==> !Crosses(r, p)
    requires r.orderType == Limit
    ensures var c := b.With(r.side, Insert(r.side, b.On(r.side), r));
      forall p, q :: p in Prices(c.bids) && q in Prices(c.asks) ==> p < q
  {
    InsertIds(r.side, b.On(r.side), r);
    var c := b.With(r.side, Insert(r.side, b.On(r.side), r));
    if r.side == Buy {
      forall p, q | p in Prices(c.bids) && q in Prices(c.asks) ensures p < q {
        assert p in Prices(b.bids) || p == r.price;
        assert !Crosses(r, q);
      }
    } else {
      forall p, q | p in Prices(c.bids) && q in Prices(c.asks) ensures p < q {
        assert q in Prices(b.asks) || q == r.price;
        assert !Crosses(r, p);
      }
    }
  }

  /** Resting an order that crosses nothing keeps the book valid. */
  lemma RestKeepsValid(b: Book, r: Order)
    requires b.Valid() && r.id !in b.RestingIds() && r.orderType == Limit && r.quantity > 0
    requires ValidSide(r.side, b.On(r.side), r.timestamp) && r.timestamp < b.next
    requires forall p :: p in Prices(b.On(r.side.Opposite())) ==> !Crosses(r, p)
    ensures b.With(r.side, Insert(r.side, b.On(r.side), r)).Valid()
  {
    var mine := Insert(r.side, b.On(r.side), r);
    assert ValidSide(r.side, mine, b.next) by {
      InsertKeepsSide(r.side, b.On(r.side), r, b.next);
    }
    assert Ids(mine) == Ids(b.On(r.side)) + {r.id} by {
      InsertIds(r.side, b.On(r.side), r);
    }
    RestPrices(b, r);
  }

  lemma CancelIds(b: Book, id: nat)
    requires b.Valid()
    ensures Cancel(b, id).0.RestingIds() == b.RestingIds() - {id}
  {
    RemoveIds(Buy, b.bids, id, b.next);
    RemoveIds(Sell, b.asks, id, b.next);
  }

  lemma CancelKeepsValid(b: Book, id: nat)
    requires b.Valid()
    ensures Cancel(b, id).0.Valid()
  {
    RemoveKeepsSide(Buy, b.bids, id, b.next);
    RemoveKeepsSide(Sell, b.asks, id, b.next);
    RemoveIds(Buy, b.bids, id, b.next);
    RemoveIds(Sell, b.asks, id, b.next);
  }

  lemma StepKeepsValid(b: Book, c: Command)
    requires b.Valid()
    ensures Step(b, c).0.Valid()
  {
    match c {
      case SubmitOrder(o) => SubmitKeepsValid(b, o);
      case CancelOrder(id) => CancelKeepsValid(b, id);
    }
  }

  /** Every run from a valid book leads to a valid book: positive quantities, price-time priority
      with strictly increasing stamps, distinct ids, and best bid below best ask. */
  lemma {:induction false} RunKeepsValid(b: Book, commands: seq<Command>)
    requires b.Valid()
    ensures Run(b, commands).0.Valid()
    decreases |commands|
  {
    if commands != [] {
      StepKeepsValid(b, commands[0]);
      RunKeepsValid(Step(b, commands[0]).0, commands[1..]);
    }
  }

  lemma {:induction false} RunAppend(b: Book, first: seq<Command>, second: seq<Command>)
    ensures Run(b, first + second).0 == Run(Run(b, first).0, second).0
    ensures Run(b, first + second).1 == Run(b, first).1 + Run(Run(b, first).0, second).1
    decreases |first|
  {
    if first == [] {
      assert first + second == second;
    } else {
      assert (first + second)[1..] == first[1..] + second && (first + second)[0] == first[0];
      var b1, fills := Step(b, first[0]).0, Step(b, first[0]).1;
      RunAppend(b1, first[1..], second);
      var more, rest := Run(b1, first[1..]).1, Run(Run(b1, first[1..]).0, second).1;
      assert fills + (more + rest) == (fills + more) + rest;
    }
  }
}
