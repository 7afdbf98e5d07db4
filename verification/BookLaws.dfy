/** Laws of the abstract book: conservation of quantity over runs, the splitting law, mirror
    symmetry, and what a cancel undoes. */
module BookLaws {
  import opened Orders
  import opened Matching
  import opened BookSpec

  // ----- conservation -----

  /** Where the quantity submitted on one side has gone. */
  datatype Ledger = Ledger(accepted: nat, filled: nat, cancelled: nat, dropped: nat) {
    function Plus(other: Ledger): Ledger {
      Ledger(accepted + other.accepted, filled + other.filled, cancelled + other.cancelled, dropped + other.dropped)
    }
  }

  /** The quantity with which an id rests in the list. */
  function QuantityOf(orders: seq<Order>, id: nat): nat {
    if orders == [] then 0 else if orders[0].id == id then orders[0].quantity else QuantityOf(orders[1..], id)
  }

  /** The entries of one command for side s. A fill counts on both sides; a market order drops what
      it asked for and did not get. */
  function Entries(s: Side, b: Book, c: Command): Ledger {
    match c
    case SubmitOrder(o) =>
      var volume := Volume(Submit(b, o).1);
      var mine := o.side == s && o.id !in b.RestingIds();
      Ledger(if mine then o.quantity else 0, volume, 0,
             if mine && o.orderType == Market then Max(0, o.quantity - volume) else 0)
    case CancelOrder(id) =>
      Ledger(0, 0, QuantityOf(b.On(s), id), 0)
  }

  function LedgerOf(s: Side, b: Book, commands: seq<Command>): Ledger
    decreases |commands|
  {
    if commands == [] then Ledger(0, 0, 0, 0)
    else Entries(s, b, commands[0]).Plus(LedgerOf(s, Step(b, commands[0]).0, commands[1..]))
  }

  lemma {:induction false} MatchConserves(resting: seq<Order>, o: Order, ts: nat)
    ensures var m := Match(resting, o, ts);
      && Quantity(resting) == Quantity(m.rest) + Volume(m.fills)
      && o.quantity == m.left + Volume(m.fills)
    decreases |resting|
  {
    if !(o.quantity == 0 || resting == [] || !Crosses(o, resting[0].price)) {
      var m := Match(resting, o, ts);
      if o.quantity < resting[0].quantity {
        assert m.rest[1..] == resting[1..] && m.fills[1..] == [];
      } else {
        var small := o.(quantity := o.quantity - resting[0].quantity);
        MatchConserves(resting[1..], small, ts + 1);
        assert m.fills[1..] == Match(resting[1..], small, ts + 1).fills;
      }
    }
  }

  lemma {:induction false} InsertQuantity(s: Side, orders: seq<Order>, o: Order)
    ensures Quantity(Insert(s, orders, o)) == Quantity(orders) + o.quantity
  {
    var r := Insert(s, orders, o);
    if orders == [] || Better(s, o.price, orders[0].price) {
      assert r[1..] == orders;
    } else {
      assert r[1..] == Insert(s, orders[1..], o);
      InsertQuantity(s, orders[1..], o);
    }
  }

  lemma {:induction false} RemoveQuantity(orders: seq<Order>, id: nat)
    ensures Quantity(Remove(orders, id)) + QuantityOf(orders, id) == Quantity(orders)
    ensures id !in Ids(orders) ==> QuantityOf(orders, id) == 0
  {
    if orders != [] {
      IdsCons(orders);
      if orders[0].id != id {
        assert Remove(orders, id)[1..] == Remove(orders[1..], id);
        RemoveQuantity(orders[1..], id);
      }
    }
  }

  /** The side an order comes in on gains what rests of it; the other side loses what it trades. */
  lemma SubmitQuantities(b: Book, o: Order)
    requires o.id !in b.RestingIds()
    ensures var b', volume := Submit(b, o).0, Volume(Submit(b, o).1);
      && Quantity(b.On(o.side.Opposite())) == Quantity(b'.On(o.side.Opposite())) + volume
      && volume <= o.quantity
      && Quantity(b'.On(o.side)) == Quantity(b.On(o.side)) + if o.orderType == Limit then o.quantity - volume else 0
  {
    MatchConserves(b.On(o.side.Opposite()), o.(timestamp := b.next), b.next + 1);
    InsertQuantity(o.side, b.On(o.side), Remainder(b, o));
  }

  lemma SubmitConserves(s: Side, b: Book, o: Order)
    ensures var e := Entries(s, b, SubmitOrder(o));
      Quantity(b.On(s)) + e.accepted == Quantity(Submit(b, o).0.On(s)) + e.filled + e.cancelled + e.dropped
  {
    if o.id !in b.RestingIds() {
      SubmitQuantities(b, o);
    }
  }

  lemma CancelConserves(s: Side, b: Book, id: nat)
    requires b.Valid()
    ensures Quantity(b.On(s)) == Quantity(Cancel(b, id).0.On(s)) + QuantityOf(b.On(s), id)
  {
    RemoveQuantity(b.On(s), id);
    if id !in Ids(b.On(s)) {
      RemoveAbsent(b.On(s), id);
    }
  }

  lemma StepConserves(s: Side, b: Book, c: Command)
    requires b.Valid()
    ensures var e := Entries(s, b, c);
      Quantity(b.On(s)) + e.accepted == Quantity(Step(b, c).0.On(s)) + e.filled + e.cancelled + e.dropped
  {
    match c {
      case SubmitOrder(o) => SubmitConserves(s, b, o);
      case CancelOrder(id) => CancelConserves(s, b, id);
    }
  }

  /** Over any run, on either side: what rested before plus what was accepted is what rests now plus
      what was filled, cancelled and dropped. */
  lemma {:induction false} RunConserves(s: Side, b: Book, commands: seq<Command>)
    requires b.Valid()
    ensures var l := LedgerOf(s, b, commands);
      Quantity(b.On(s)) + l.accepted == Quantity(Run(b, commands).0.On(s)) + l.filled + l.cancelled + l.dropped
    ensures LedgerOf(s, b, commands).filled == Volume(Run(b, commands).1)
    decreases |commands|
  {
    if commands != [] {
      var b1 := Step(b, commands[0]).0;
      StepConserves(s, b, commands[0]);
      StepKeepsValid(b, commands[0]);
      RunConserves(s, b1, commands[1..]);
      VolumeAppend(Step(b, commands[0]).1, Run(b1, commands[1..]).1);
    }
  }

  // ----- splitting -----

  /** Quantity that the fills take from one resting order. */
  function TakenFrom(fills: seq<Fill>, id: nat): nat {
    if fills == [] then 0
    else (if fills[0].restingId == id then fills[0].quantity else 0) + TakenFrom(fills[1..], id)
  }

  lemma {:induction false} TakenFromAppend(a: seq<Fill>, b: seq<Fill>, id: nat)
    ensures TakenFrom(a + b, id) == TakenFrom(a, id) + TakenFrom(b, id)
  {
    if a == [] {
      assert a + b == b;
    } else {
      assert (a + b)[1..] == a[1..] + b;
      TakenFromAppend(a[1..], b, id);
    }
  }

  /** Two incoming orders that differ only in id, stamp and size. */
  predicate Alike(o: Order, p: Order) {
    o.side == p.side && o.orderType == p.orderType && o.price == p.price
  }

  /** One step of matching when the head is used up. */
  lemma HeadUsedUp(resting: seq<Order>, o: Order, ts: nat, id: nat)
    requires resting != [] && Crosses(o, resting[0].price) && 0 < o.quantity && resting[0].quantity <= o.quantity
    ensures var m := Match(resting, o, ts);
      var m1 := Match(resting[1..], o.(quantity := o.quantity - resting[0].quantity), ts + 1);
      && m.rest == m1.rest && m.left == m1.left
      && TakenFrom(m.fills, id) == (if resting[0].id == id then resting[0].quantity else 0) + TakenFrom(m1.fills, id)
  {
    var m1 := Match(resting[1..], o.(quantity := o.quantity - resting[0].quantity), ts + 1);
    assert Match(resting, o, ts).fills[1..] == m1.fills;
  }

  /** One step of matching when the head is larger than the incoming order. */
  lemma HeadReduced(resting: seq<Order>, o: Order, ts: nat, id: nat)
    requires resting != [] && Crosses(o, resting[0].price) && o.quantity < resting[0].quantity
    ensures var m := Match(resting, o, ts);
      && m.rest == [resting[0].(quantity := resting[0].quantity - o.quantity)] + resting[1..] && m.left == 0
      && TakenFrom(m.fills, id) == if resting[0].id == id then o.quantity else 0
  {
    if o.quantity == 0 {
      assert resting == [resting[0]] + resting[1..];
    } else {
      assert Match(resting, o, ts).fills[1..] == [];
    }
  }

  lemma {:induction false} MatchIgnoresIdentity(resting: seq<Order>, o: Order, p: Order, ts: nat, us: nat, id: nat)
    requires Alike(o, p) && o.quantity == p.quantity
    ensures Match(resting, o, ts).rest == Match(resting, p, us).rest
    ensures Match(resting, o, ts).left == Match(resting, p, us).left
    ensures TakenFrom(Match(resting, o, ts).fills, id) == TakenFrom(Match(resting, p, us).fills, id)
    decreases |resting|
  {
    if o.quantity == 0 || resting == [] || !Crosses(o, resting[0].price) {
    } else if resting[0].quantity <= o.quantity {
      var q := o.quantity - resting[0].quantity;
      HeadUsedUp(resting, o, ts, id);
      HeadUsedUp(resting, p, us, id);
      MatchIgnoresIdentity(resting[1..], o.(quantity := q), p.(quantity := q), ts + 1, us + 1, id);
    } else {
      HeadReduced(resting, o, ts, id);
      HeadReduced(resting, p, us, id);
    }
  }

  lemma NothingTaken(resting: seq<Order>, o: Order, ts: nat)
    requires resting == [] || !Crosses(o, resting[0].price)
    ensures Match(resting, o, ts) == Outcome([], resting, o.quantity)
  {
  }

  /** Matching o and then p leaves, and takes from each resting order, what matching whole does. */
  predicate Splits(resting: seq<Order>, o: Order, p: Order, whole: Order, ts: nat, us: nat, vs: nat, id: nat) {
    var first := Match(resting, o, ts);
    var second := Match(first.rest, p, us);
    var once := Match(resting, whole, vs);
    && second.rest == once.rest
    && once.left == first.left + second.left
    && TakenFrom(once.fills, id) == TakenFrom(first.fills, id) + TakenFrom(second.fills, id)
  }

  /** Matching is an action of addition: a then b is the same as a + b. */
  lemma {:induction false} MatchSplits(resting: seq<Order>, o: Order, p: Order, whole: Order, ts: nat, us: nat,
          vs: nat, id: nat)
    requires Alike(o, p) && Alike(o, whole) && whole.quantity == o.quantity + p.quantity
    ensures Splits(resting, o, p, whole, ts, us, vs, id)
    decreases |resting|
  {
    if resting == [] || !Crosses(o, resting[0].price) {
      NothingTaken(resting, o, ts);
      NothingTaken(resting, p, us);
      NothingTaken(resting, whole, vs);
    } else if o.quantity == 0 {
      assert Match(resting, o, ts) == Outcome([], resting, 0);
      MatchIgnoresIdentity(resting, p, whole, us, vs, id);
    } else if resting[0].quantity <= o.quantity {
      var q := resting[0].quantity;
      MatchSplits(resting[1..], o.(quantity := o.quantity - q), p, whole.(quantity := whole.quantity - q), ts + 1, us, vs + 1, id);
      SplitPastHead(resting, o, p, whole, ts, us, vs, id);
    } else {
      HeadReduced(resting, o, ts, id);
      SplitInsideHead(resting, o, p, whole, us, vs, id);
    }
  }

  lemma SplitPastHead(resting: seq<Order>, o: Order, p: Order, whole: Order, ts: nat, us: nat, vs: nat, id: nat)
    requires Alike(o, whole) && resting != [] && Crosses(o, resting[0].price)
    requires 0 < o.quantity <= whole.quantity && resting[0].quantity <= o.quantity
    requires var q := resting[0].quantity;
      Splits(resting[1..], o.(quantity := o.quantity - q), p, whole.(quantity := whole.quantity - q), ts + 1, us, vs + 1, id)
    ensures Splits(resting, o, p, whole, ts, us, vs, id)
  {
    HeadUsedUp(resting, o, ts, id);
    HeadUsedUp(resting, whole, vs, id);
  }

  lemma SplitInsideHead(resting: seq<Order>, o: Order, p: Order, whole: Order, us: nat, vs: nat, id: nat)
    requires Alike(o, p) && Alike(o, whole) && whole.quantity == o.quantity + p.quantity
    requires resting != [] && Crosses(o, resting[0].price) && 0 < o.quantity < resting[0].quantity
    ensures var second := Match([resting[0].(quantity := resting[0].quantity - o.quantity)] + resting[1..], p, us);
      var once := Match(resting, whole, vs);
      && second.rest == once.rest
      && once.left == second.left
      && TakenFrom(once.fills, id) == (if resting[0].id == id then o.quantity else 0) + TakenFrom(second.fills, id)
  {
    var q := resting[0].quantity - o.quantity;
    var left := [resting[0].(quantity := q)] + resting[1..];
    assert left[1..] == resting[1..];
    if q <= p.quantity {
      HeadUsedUp(left, p, us, id);
      HeadUsedUp(resting, whole, vs, id);
      MatchIgnoresIdentity(resting[1..], p.(quantity := p.quantity - q), whole.(quantity := p.quantity - q), us + 1, vs + 1, id);
    } else {
      HeadReduced(left, p, us, id);
      HeadReduced(resting, whole, vs, id);
    }
  }

  lemma {:induction false} InsertQuantityAt(s: Side, orders: seq<Order>, o: Order, price: int)
    ensures QuantityAt(Insert(s, orders, o), price)
         == QuantityAt(orders, price) + (if o.price == price then o.quantity else 0)
  {
    var r := Insert(s, orders, o);
    if orders == [] || Better(s, o.price, orders[0].price) {
      assert r[1..] == orders;
    } else {
      assert r[1..] == Insert(s, orders[1..], o);
      InsertQuantityAt(s, orders[1..], o, price);
    }
  }

  /** One submission, told apart by side. */
  lemma SubmitParts(b: Book, o: Order, price: int)
    requires o.id !in b.RestingIds()
    ensures var (b', fills) := Submit(b, o);
      && fills == Trades(b, o).fills
      && b'.On(o.side.Opposite()) == Trades(b, o).rest
      && QuantityAt(b'.On(o.side), price)
         == QuantityAt(b.On(o.side), price) + (if o.orderType == Limit && o.price == price then Trades(b, o).left else 0)
  {
    InsertQuantityAt(o.side, b.On(o.side), Remainder(b, o), price);
  }

  lemma TradesSplit(b: Book, b1: Book, o: Order, p: Order, whole: Order, id: nat)
    requires Alike(o, p) && Alike(o, whole) && whole.quantity == o.quantity + p.quantity
    requires b1.On(o.side.Opposite()) == Trades(b, o).rest
    ensures var first, second, once := Trades(b, o), Trades(b1, p), Trades(b, whole);
      && second.rest == once.rest
      && once.left == first.left + second.left
      && TakenFrom(once.fills, id) == TakenFrom(first.fills, id) + TakenFrom(second.fills, id)
  {
    MatchSplits(b.On(o.side.Opposite()), o.(timestamp := b.next), p.(timestamp := b1.next), whole.(timestamp := b.next),
                b.next + 1, b1.next + 1, b.next + 1, id);
  }

  /** Splitting an order of size a + b into a then b, with fresh ids, changes neither the opposite
      side, nor the quantity resting at any price, nor what is taken from any resting order. */
  lemma SubmitSplits(b: Book, o: Order, p: Order, whole: Order, price: int, id: nat)
    requires b.Valid()
    requires Alike(o, p) && Alike(o, whole) && whole.quantity == o.quantity + p.quantity
    requires o.id !in b.RestingIds() && p.id !in b.RestingIds() && whole.id !in b.RestingIds() && o.id != p.id
    ensures var (b1, fills1) := Submit(b, o);
      var (b2, fills2) := Submit(b1, p);
      var (once, fills) := Submit(b, whole);
      && b2.On(o.side.Opposite()) == once.On(o.side.Opposite())
      && QuantityAt(b2.On(o.side), price) == QuantityAt(once.On(o.side), price)
      && TakenFrom(fills1 + fills2, id) == TakenFrom(fills, id)
  {
    var (b1, fills1) := Submit(b, o);
    assert p.id !in b1.RestingIds() by {
      SubmitIds(b, o);
    }
    SubmitParts(b, o, price);
    SubmitParts(b1, p, price);
    SubmitParts(b, whole, price);
    TakenFromAppend(fills1, Submit(b1, p).1, id);
    TradesSplit(b, b1, o, p, whole, id);
  }

  // ----- mirror symmetry -----

  function MirrorOrder(o: Order): Order {
    o.(side := o.side.Opposite(), price := -o.price)
  }

  function MirrorOrders(orders: seq<Order>): (r: seq<Order>)
    ensures |r| == |orders|
    ensures forall i :: 0 <= i < |r| ==> r[i] == MirrorOrder(orders[i])
  {
    seq(|orders|, i requires 0 <= i < |orders| => MirrorOrder(orders[i]))
  }

  function MirrorFill(f: Fill): Fill {
    f.(restingSide := f.restingSide.Opposite(), price := -f.price)
  }

  function MirrorFills(fills: seq<Fill>): (r: seq<Fill>)
    ensures |r| == |fills|
    ensures forall i :: 0 <= i < |r| ==> r[i] == MirrorFill(fills[i])
  {
    seq(|fills|, i requires 0 <= i < |fills| => MirrorFill(fills[i]))
  }

  /** All prices negated and the two sides exchanged. */
  function Mirror(b: Book): Book {
    Book(MirrorOrders(b.asks), MirrorOrders(b.bids), b.next)
  }

  function MirrorCommand(c: Command): Command {
    match c
    case SubmitOrder(o) => SubmitOrder(MirrorOrder(o))
    case CancelOrder(_) => c
  }

  function MirrorCommands(commands: seq<Command>): (r: seq<Command>)
    ensures |r| == |commands|
    ensures forall i :: 0 <= i < |r| ==> r[i] == MirrorCommand(commands[i])
  {
    seq(|commands|, i requires 0 <= i < |commands| => MirrorCommand(commands[i]))
  }

  /** Matching in the mirror gives the mirrored outcome. */
  predicate Mirrored(resting: seq<Order>, o: Order, ts: nat) {
    var m := Match(resting, o, ts);
    Match(MirrorOrders(resting), MirrorOrder(o), ts) == Outcome(MirrorFills(m.fills), MirrorOrders(m.rest), m.left)
  }

  /** The fill of a head that is used up. */
  function HeadFill(head: Order, o: Order, ts: nat): Fill {
    Fill(head.id, o.id, o.side.Opposite(), head.price, head.quantity, ts)
  }

  /** Matching past a head that is used up, its tail being t. */
  lemma PastHead(resting: seq<Order>, tail: seq<Order>, o: Order, small: Order, ts: nat, t: Outcome)
    requires resting != [] && Crosses(o, resting[0].price) && 0 < o.quantity && resting[0].quantity <= o.quantity
    requires tail == resting[1..] && small == o.(quantity := o.quantity - resting[0].quantity)
    requires t == Match(tail, small, ts + 1)
    ensures Match(resting, o, ts) == Outcome([HeadFill(resting[0], o, ts)] + t.fills, t.rest, t.left)
  {
  }

  lemma MirrorUsedUp(resting: seq<Order>, o: Order, ts: nat)
    requires resting != [] && Crosses(o, resting[0].price) && 0 < o.quantity && resting[0].quantity <= o.quantity
    requires Mirrored(resting[1..], o.(quantity := o.quantity - resting[0].quantity), ts + 1)
    ensures Mirrored(resting, o, ts)
  {
    var small, head := o.(quantity := o.quantity - resting[0].quantity), HeadFill(resting[0], o, ts);
    var t, tt := Match(resting[1..], small, ts + 1), Match(MirrorOrders(resting[1..]), MirrorOrder(small), ts + 1);
    PastHead(resting, resting[1..], o, small, ts, t);
    PastHead(MirrorOrders(resting), MirrorOrders(resting[1..]), MirrorOrder(o), MirrorOrder(small), ts, tt);
    MirrorFillsCons(head, t.fills);
    assert MirrorFill(head) == HeadFill(MirrorOrder(resting[0]), MirrorOrder(o), ts);
  }

  lemma MirrorFillsCons(f: Fill, fills: seq<Fill>)
    ensures MirrorFills([f] + fills) == [MirrorFill(f)] + MirrorFills(fills)
  {
  }

  lemma MirrorReduced(resting: seq<Order>, o: Order, ts: nat)
    requires resting != [] && Crosses(o, resting[0].price) && 0 < o.quantity < resting[0].quantity
    ensures Mirrored(resting, o, ts)
  {
    var m, mm := Match(resting, o, ts), Match(MirrorOrders(resting), MirrorOrder(o), ts);
    assert mm.fills == MirrorFills(m.fills);
    assert mm.rest == MirrorOrders(m.rest);
  }

  lemma MirrorNothing(resting: seq<Order>, o: Order, ts: nat)
    requires o.quantity == 0 || resting == [] || !Crosses(o, resting[0].price)
    ensures Mirrored(resting, o, ts)
  {
    assert MirrorFills([]) == [];
  }

  lemma {:induction false} MirrorMatch(resting: seq<Order>, o: Order, ts: nat)
    ensures Mirrored(resting, o, ts)
    decreases |resting|
  {
    if o.quantity == 0 || resting == [] || !Crosses(o, resting[0].price) {
      MirrorNothing(resting, o, ts);
    } else if resting[0].quantity <= o.quantity {
      MirrorMatch(resting[1..], o.(quantity := o.quantity - resting[0].quantity), ts + 1);
      MirrorUsedUp(resting, o, ts);
    } else {
      MirrorReduced(resting, o, ts);
    }
  }

  lemma MirrorCons(o: Order, orders: seq<Order>)
    ensures MirrorOrders([o] + orders) == [MirrorOrder(o)] + MirrorOrders(orders)
  {
  }

  lemma {:induction false} MirrorInsert(s: Side, orders: seq<Order>, o: Order)
    ensures Insert(s.Opposite(), MirrorOrders(orders), MirrorOrder(o)) == MirrorOrders(Insert(s, orders, o))
  {
    if orders == [] || Better(s, o.price, orders[0].price) {
      MirrorCons(o, orders);
    } else {
      assert MirrorOrders(orders)[1..] == MirrorOrders(orders[1..]);
      MirrorInsert(s, orders[1..], o);
      MirrorCons(orders[0], Insert(s, orders[1..], o));
    }
  }

  lemma {:induction false} MirrorRemove(orders: seq<Order>, id: nat)
    ensures Remove(MirrorOrders(orders), id) == MirrorOrders(Remove(orders, id))
  {
    if orders != [] {
      assert MirrorOrders(orders)[1..] == MirrorOrders(orders[1..]);
      MirrorRemove(orders[1..], id);
    }
  }

  lemma MirrorIds(orders: seq<Order>)
    ensures Ids(MirrorOrders(orders)) == Ids(orders)
  {
    var m := MirrorOrders(orders);
    forall x | x in Ids(orders) ensures x in Ids(m) {
      var i :| 0 <= i < |orders| && orders[i].id == x;
      assert m[i] in m;
    }
    forall x | x in Ids(m) ensures x in Ids(orders) {
      var i :| 0 <= i < |m| && m[i].id == x;
      assert orders[i] in orders;
    }
  }

  lemma MirrorSides(b: Book, s: Side, orders: seq<Order>)
    ensures Mirror(b).On(s.Opposite()) == MirrorOrders(b.On(s))
    ensures Mirror(b).With(s.Opposite(), MirrorOrders(orders)) == Mirror(b.With(s, orders))
  {
  }

  lemma MirrorTrades(b: Book, o: Order)
    ensures var m := Trades(b, o);
      Trades(Mirror(b), MirrorOrder(o)) == Outcome(MirrorFills(m.fills), MirrorOrders(m.rest), m.left)
    ensures Remainder(Mirror(b), MirrorOrder(o)) == MirrorOrder(Remainder(b, o))
    ensures Matched(Mirror(b), MirrorOrder(o)) == Mirror(Matched(b, o))
  {
    var opp := o.side.Opposite();
    MirrorMatch(b.On(opp), o.(timestamp := b.next), b.next + 1);
    MirrorSides(b, opp, Trades(b, o).rest);
    assert MirrorOrder(o).(timestamp := b.next) == MirrorOrder(o.(timestamp := b.next));
  }

  lemma MirrorSubmit(b: Book, o: Order)
    ensures Submit(Mirror(b), MirrorOrder(o)) == (Mirror(Submit(b, o).0), MirrorFills(Submit(b, o).1))
  {
    MirrorIds(b.bids);
    MirrorIds(b.asks);
    if o.id in b.RestingIds() {
      assert MirrorFills([]) == [];
    } else {
      MirrorTrades(b, o);
      var matched, r := Matched(b, o), Remainder(b, o);
      MirrorInsert(o.side, matched.On(o.side), r);
      MirrorSides(matched, o.side, Insert(o.side, matched.On(o.side), r));
    }
  }

  lemma MirrorCancel(b: Book, id: nat)
    requires b.Valid()
    ensures Cancel(Mirror(b), id).0 == Mirror(Cancel(b, id).0)
  {
    MirrorIds(b.bids);
    MirrorIds(b.asks);
    MirrorRemove(b.bids, id);
    MirrorRemove(b.asks, id);
  }

  lemma MirrorStep(b: Book, c: Command)
    requires b.Valid()
    ensures Step(Mirror(b), MirrorCommand(c)) == (Mirror(Step(b, c).0), MirrorFills(Step(b, c).1))
  {
    match c {
      case SubmitOrder(o) => MirrorSubmit(b, o);
      case CancelOrder(id) =>
        MirrorCancel(b, id);
        assert MirrorFills([]) == [];
    }
  }

  lemma MirrorFillsAppend(a: seq<Fill>, b: seq<Fill>)
    ensures MirrorFills(a + b) == MirrorFills(a) + MirrorFills(b)
  {
  }

  /** Negating all prices and exchanging buys and sells commutes with every run: the sell side of
      the book is the exact mirror of the buy side, in fills and in the resulting book. */
  lemma {:induction false} MirrorRun(b: Book, commands: seq<Command>)
    requires b.Valid()
    ensures Run(Mirror(b), MirrorCommands(commands)).0 == Mirror(Run(b, commands).0)
    ensures Run(Mirror(b), MirrorCommands(commands)).1 == MirrorFills(Run(b, commands).1)
    decreases |commands|
  {
    var mirrored := MirrorCommands(commands);
    if commands == [] {
      assert MirrorFills([]) == [];
    } else {
      var (b1, fills) := Step(b, commands[0]);
      MirrorStep(b, commands[0]);
      StepKeepsValid(b, commands[0]);
      MirrorRun(b1, commands[1..]);
      assert mirrored[0] == MirrorCommand(commands[0]) && mirrored[1..] == MirrorCommands(commands[1..]);
      MirrorFillsAppend(fills, Run(b1, commands[1..]).1);
    }
  }

  // ----- cancel -----

  lemma {:induction false} RemoveTakesOne(orders: seq<Order>, id: nat) returns (before: seq<Order>, o: Order,
          after: seq<Order>)
    requires id in Ids(orders)
    ensures o.id == id && orders == before + [o] + after && Remove(orders, id) == before + after
  {
    IdsCons(orders);
    if orders[0].id == id {
      before, o, after := [], orders[0], orders[1..];
    } else {
      before, o, after := RemoveTakesOne(orders[1..], id);
      before := [orders[0]] + before;
    }
  }

  /** Cancelling a resting id takes out exactly that order; every other order keeps its place in
      line. An id that does not rest is refused and nothing changes. */
  lemma CancelRemovesExactly(b: Book, id: nat)
    requires b.Valid()
    ensures Cancel(b, id).1 <==> id in b.RestingIds()
    ensures !Cancel(b, id).1 ==> Cancel(b, id).0 == b
    ensures Cancel(b, id).1 ==>
      exists s: Side, before: seq<Order>, o: Order, after: seq<Order> ::
        && o.id == id && b.On(s) == before + [o] + after
        && Cancel(b, id).0 == b.With(s, before + after)
  {
    if id in b.RestingIds() {
      var s := if id in Ids(b.bids) then Buy else Sell;
      var before, o, after := RemoveTakesOne(b.On(s), id);
      assert b.On(s) == before + [o] + after && Cancel(b, id).0 == b.With(s, before + after);
    }
  }

  /** Submitting a fresh limit order that trades with nothing and cancelling it again restores both
      sides; only the stamp counter has moved. */
  lemma CancelUndoesSubmit(b: Book, o: Order)
    requires b.Valid() && o.id !in b.RestingIds() && o.orderType == Limit && o.quantity > 0
    requires var other := b.On(o.side.Opposite()); other == [] || !Crosses(o, other[0].price)
    ensures var (b1, fills) := Submit(b, o);
      fills == [] && Cancel(b1, o.id) == (b.(next := b.next + 1), true)
  {
    var r := o.(timestamp := b.next);
    RestsWhole(b, o);
    InsertIds(o.side, b.On(o.side), r);
    RemoveUndoesInsert(o.side, b.On(o.side), r);
    CancelOn(Submit(b, o).0, o.side, o.id);
  }

  lemma RestsWhole(b: Book, o: Order)
    requires o.id !in b.RestingIds() && o.orderType == Limit && o.quantity > 0
    requires var other := b.On(o.side.Opposite()); other == [] || !Crosses(o, other[0].price)
    ensures Submit(b, o) == (b.With(o.side, Insert(o.side, b.On(o.side), o.(timestamp := b.next))).(next := b.next + 1), [])
  {
    assert Trades(b, o) == Outcome([], b.On(o.side.Opposite()), o.quantity);
    assert Remainder(b, o) == o.(timestamp := b.next);
  }

  lemma CancelOn(b: Book, s: Side, id: nat)
    requires id in Ids(b.On(s)) && id !in Ids(b.On(s.Opposite()))
    ensures Cancel(b, id) == (b.With(s, Remove(b.On(s), id)), true)
  {
  }

  lemma {:induction false} RemoveUndoesInsert(s: Side, orders: seq<Order>, o: Order)
    requires o.id !in Ids(orders)
    ensures Remove(Insert(s, orders, o), o.id) == orders
  {
    var r := Insert(s, orders, o);
    if orders == [] || Better(s, o.price, orders[0].price) {
      assert r[1..] == orders;
    } else {
      IdsCons(orders);
      assert r[1..] == Insert(s, orders[1..], o);
      RemoveUndoesInsert(s, orders[1..], o);
      assert orders == [orders[0]] + orders[1..];
    }
  }
}
