/** The limit order book (engine/src/order_book.cpp): price levels in two sorted maps, an index from
    resting ids to price and side, and a stamp counter, all updated in place. */
module OrderBooks {
  import opened Orders
  import opened Matching
  import opened BookSpec
  import opened PriceLevels
  import opened PriceTime
  import opened Snapshots

  type Index = map<nat, (int, Side)>

  /** The index knows exactly the resting ids, each with its order's price and side. */
  ghost predicate IndexExact(index: Index, b: Book) {
    && index.Keys == b.RestingIds()
    && (forall o :: o in b.bids ==> index[o.id] == (o.price, Buy))
    && (forall o :: o in b.asks ==> index[o.id] == (o.price, Sell))
  }

  /** There is only one such index. */
  lemma IndexDetermined(i: Index, j: Index, b: Book)
    requires IndexExact(i, b) && IndexExact(j, b)
    ensures i == j
  {
    forall id | id in i ensures i[id] == j[id] {
      var o :| (o in b.bids || o in b.asks) && o.id == id;
    }
  }

  /** The list after the incoming order o trades with its head. */
  function HeadTraded(resting: seq<Order>, o: Order): seq<Order>
    requires resting != []
  {
    var head, tail := resting[0], resting[1..];
    if head.quantity <= o.quantity then tail else [head.(quantity := head.quantity - o.quantity)] + tail
  }

  /** One trade: matching continues with the changed list and the smaller order. */
  lemma HeadTradedContinues(resting: seq<Order>, o: Order, ts: nat)
    requires resting != [] && o.quantity > 0 && Crosses(o, resting[0].price)
    ensures var head := resting[0];
      var traded := Min(o.quantity, head.quantity);
      var m := Match(HeadTraded(resting, o), o.(quantity := o.quantity - traded), ts + 1);
      Match(resting, o, ts)
        == Outcome([Fill(head.id, o.id, o.side.Opposite(), head.price, traded, ts)] + m.fills, m.rest, m.left)
  {
    var f := Fill(resting[0].id, o.id, o.side.Opposite(), resting[0].price, o.quantity, ts);
    assert [f] + [] == [f];
  }

  lemma HeadTradedValid(s: Side, resting: seq<Order>, o: Order, next: nat)
    requires ValidSide(s, resting, next) && resting != []
    ensures var r := HeadTraded(resting, o); var head := resting[0];
      && ValidSide(s, r, next)
      && Ids(r) == (if head.quantity <= o.quantity then Ids(resting) - {head.id} else Ids(resting))
      && Prices(r) <= Prices(resting)
  {
    var head := resting[0];
    if head.quantity <= o.quantity {
      ValidUncons(s, resting, next);
      IdsCons(resting);
    } else {
      ReplaceHead(s, resting, head.quantity - o.quantity, next);
    }
  }

  lemma HeadTradedMembers(resting: seq<Order>, o: Order)
    requires resting != []
    ensures forall x :: x in HeadTraded(resting, o) ==> exists y :: y in resting && y.id == x.id && y.price == x.price
  {
    var head := resting[0];
    assert head in resting && forall x :: x in resting[1..] ==> x in resting;
  }

  /** The same on a book: side s trades its head, the stamp counter moves on. */
  function TradeHead(b: Book, s: Side, o: Order): Book
    requires b.On(s) != []
  {
    b.With(s, HeadTraded(b.On(s), o)).(next := b.next + 1)
  }

  lemma TradeHeadKeepsValid(b: Book, s: Side, o: Order)
    requires b.Valid() && b.On(s) != []
    ensures TradeHead(b, s, o).Valid()
  {
    HeadTradedValid(s, b.On(s), o, b.next);
    ValidLater(s, HeadTraded(b.On(s), o), b.next, b.next + 1);
    ValidLater(s.Opposite(), b.On(s.Opposite()), b.next, b.next + 1);
  }

  lemma TradeHeadIndex(b: Book, s: Side, o: Order, index: Index)
    requires b.Valid() && b.On(s) != [] && IndexExact(index, b)
    ensures var head := b.On(s)[0];
      IndexExact(if head.quantity <= o.quantity then index - {head.id} else index, TradeHead(b, s, o))
  {
    var head, r := b.On(s)[0], HeadTraded(b.On(s), o);
    HeadTradedValid(s, b.On(s), o, b.next);
    HeadTradedMembers(b.On(s), o);
    assert head in b.On(s);
    var index' := if head.quantity <= o.quantity then index - {head.id} else index;
    forall x | x in r ensures x.id in index' && index'[x.id] == (x.price, s) {
      var y :| y in b.On(s) && y.id == x.id && y.price == x.price;
      assert x.id in Ids(r);
    }
    forall x | x in b.On(s.Opposite()) ensures x.id in index' && index'[x.id] == (x.price, s.Opposite()) {
      assert x.id in Ids(b.On(s.Opposite()));
    }
  }

  /** The levels of side s while its best level p is being matched and may have run empty. */
  ghost predicate BestLevelOpen(s: Side, levels: Levels, p: int) {
    Keyed(levels) && IsBest(s, levels, p) && NoEmptyLevel(levels - {p})
  }

  /** Trading with the front of the best level is trading with the head of the flat view. */
  lemma TradeFront(s: Side, levels: Levels, p: int, o: Order)
    requires BestLevelOpen(s, levels, p) && levels[p].orders != []
    ensures Flat(s, levels) != [] && Flat(s, levels)[0] == levels[p].orders[0]
    ensures var level := levels[p];
      var levels' := levels[p := level.(orders := HeadTraded(level.orders, o))];
      && BestLevelOpen(s, levels', p)
      && Flat(s, levels') == HeadTraded(Flat(s, levels), o)
  {
    var level := levels[p];
    var level' := level.(orders := HeadTraded(level.orders, o));
    var levels', rest := levels[p := level'], Flat(s, levels - {p});
    FlatBest(s, levels, p, level');
    assert (level.orders + rest)[1..] == level.orders[1..] + rest;
    assert levels' - {p} == levels - {p};
    assert IsBest(s, levels', p);
  }

  /** Matching as far as it has come: the fills so far and what matching the rest would give. */
  predicate SoFar(goal: Outcome, fills: seq<Fill>, m: Outcome) {
    goal == Outcome(fills + m.fills, m.rest, m.left)
  }

  lemma SoFarStep(goal: Outcome, fills: seq<Fill>, f: Fill, m: Outcome)
    requires SoFar(goal, fills, Outcome([f] + m.fills, m.rest, m.left))
    ensures SoFar(goal, fills + [f], m)
  {
    assert fills + ([f] + m.fills) == (fills + [f]) + m.fills;
  }

  /** The four fields of the object as one value. */
  datatype Fields = Fields(bids: Levels, asks: Levels, index: Index, next: nat) {
    function On(s: Side): Levels {
      if s == Buy then bids else asks
    }

    function With(s: Side, levels: Levels): Fields {
      if s == Buy then this.(bids := levels) else this.(asks := levels)
    }

    /** The abstract book they stand for. */
    ghost function View(): Book {
      Book(Flat(Buy, bids), Flat(Sell, asks), next)
    }

    /** Abstract book valid, index exact. */
    ghost predicate Consistent() {
      View().Valid() && IndexExact(index, View())
    }

    ghost predicate Valid() {
      && Keyed(bids) && NoEmptyLevel(bids)
      && Keyed(asks) && NoEmptyLevel(asks)
      && Consistent()
    }

    /** Valid, except that level p of side s, the best one, may have run empty. */
    ghost predicate Open(s: Side, p: int) {
      && BestLevelOpen(s, On(s), p)
      && Keyed(On(s.Opposite())) && NoEmptyLevel(On(s.Opposite()))
      && Consistent()
    }

    /** The fields after the front order of level p of side s trades with an order of size left. */
    function FrontTraded(s: Side, p: int, left: nat): Fields
      requires p in On(s) && On(s)[p].orders != []
    {
      var level := On(s)[p];
      var front := level.orders[0];
      var traded := Min(left, front.quantity);
      if front.quantity == traded then
        With(s, On(s)[p := level.(orders := level.orders[1..])]).(index := index - {front.id}, next := next + 1)
      else
        With(s, On(s)[p := level.(orders := [front.(quantity := front.quantity - traded)] + level.orders[1..])])
        .(next := next + 1)
    }
  }

  lemma FrontTradedLevels(f: Fields, s: Side, p: int, o: Order)
    requires p in f.On(s) && f.On(s)[p].orders != []
    ensures var level := f.On(s)[p]; var f' := f.FrontTraded(s, p, o.quantity);
      && f'.On(s) == f.On(s)[p := level.(orders := HeadTraded(level.orders, o))]
      && f'.On(s.Opposite()) == f.On(s.Opposite())
      && f'.next == f.next + 1
  {
  }

  lemma FrontTradedView(f: Fields, s: Side, p: int, o: Order)
    requires f.Open(s, p) && f.On(s)[p].orders != []
    ensures f.View().On(s) != [] && f.View().On(s)[0] == f.On(s)[p].orders[0]
    ensures f.FrontTraded(s, p, o.quantity).View() == TradeHead(f.View(), s, o)
    ensures BestLevelOpen(s, f.FrontTraded(s, p, o.quantity).On(s), p)
  {
    TradeFront(s, f.On(s), p, o);
    FrontTradedLevels(f, s, p, o);
  }

  lemma FrontTradedOpen(f: Fields, s: Side, p: int, o: Order)
    requires f.Open(s, p) && f.On(s)[p].orders != []
    ensures f.FrontTraded(s, p, o.quantity).Open(s, p)
    ensures f.FrontTraded(s, p, o.quantity).On(s).Keys == f.On(s).Keys
  {
    FrontTradedView(f, s, p, o);
    TradeHeadKeepsValid(f.View(), s, o);
    TradeHeadIndex(f.View(), s, o, f.index);
    FrontTradedLevels(f, s, p, o);
    FrontTradedIndex(f, s, p, o);
  }

  lemma FrontTradedIndex(f: Fields, s: Side, p: int, o: Order)
    requires p in f.On(s) && f.On(s)[p].orders != []
    ensures var front := f.On(s)[p].orders[0];
      f.FrontTraded(s, p, o.quantity).index == if front.quantity <= o.quantity then f.index - {front.id} else f.index
  {
  }

  lemma ClosedValid(f: Fields, s: Side, p: int)
    requires f.Open(s, p)
    ensures f.On(s)[p].orders == [] ==>
      var f' := f.With(s, f.On(s) - {p}); f'.Valid() && f'.View() == f.View()
    ensures f.On(s)[p].orders != [] ==> f.Valid()
  {
    var levels := f.On(s);
    if levels[p].orders == [] {
      FlatDropEmpty(s, levels, p);
    } else {
      assert forall q :: q in levels && q != p ==> q in levels - {p} && (levels - {p})[q] == levels[q];
    }
  }

  lemma OpensBest(f: Fields, s: Side)
    requires f.Valid() && f.On(s) != map[]
    ensures var p := Best(s, f.On(s));
      && f.Open(s, p)
      && f.On(s)[p].price == p
      && f.View().On(s) != [] && f.View().On(s)[0].price == p
  {
    FlatHeadPrice(s, f.On(s));
  }

  /** The fill that the front of level p gives an order of size left. */
  function FrontFill(f: Fields, s: Side, p: int, id: nat, left: nat): Fill
    requires p in f.On(s) && f.On(s)[p].orders != []
  {
    var front := f.On(s)[p].orders[0];
    Fill(front.id, id, s, f.On(s)[p].price, Min(left, front.quantity), f.next)
  }

  /** Matching the rest of o against resting completes the fills so far to the outcome. */
  predicate Along(goal: Outcome, resting: seq<Order>, next: nat, o: Order, left: nat, fills: seq<Fill>) {
    SoFar(goal, fills, Match(resting, o.(quantity := left), next))
  }

  /** How far matching o against side s has come since start: the other side is untouched, every
      fill took a stamp, and the outcome is the fills so far followed by what matching the rest of
      the order against the present book gives. */
  ghost predicate Progress(start: Fields, f: Fields, s: Side, o: Order, left: nat, fills: seq<Fill>) {
    && f.On(s.Opposite()) == start.On(s.Opposite())
    && f.next == start.next + |fills|
    && Along(Match(start.View().On(s), o, start.next), f.View().On(s), f.next, o, left, fills)
  }

  lemma ProgressStarts(f: Fields, s: Side, o: Order)
    ensures Progress(f, f, s, o, o.quantity, [])
  {
    assert o.(quantity := o.quantity) == o;
  }

  /** With size left, matching starts with this fill and goes on with the rest of the list. */
  predicate Trade(resting: seq<Order>, rest: seq<Order>, o: Order, left: nat, ts: nat, fill: Fill)
    requires fill.quantity <= left
  {
    var m := Match(rest, o.(quantity := left - fill.quantity), ts + 1);
    Match(resting, o.(quantity := left), ts) == Outcome([fill] + m.fills, m.rest, m.left)
  }

  lemma FrontTradedMatch(f: Fields, s: Side, p: int, o: Order, left: nat)
    requires f.Open(s, p) && f.On(s)[p].orders != []
    requires 0 < left && s == o.side.Opposite() && Crosses(o, p)
    ensures Trade(f.View().On(s), f.FrontTraded(s, p, left).View().On(s), o, left, f.next, FrontFill(f, s, p, o.id, left))
  {
    var step, fill := o.(quantity := left), FrontFill(f, s, p, o.id, left);
    var resting, f' := f.View().On(s), f.FrontTraded(s, p, left);
    assert resting != [] && resting[0] == f.On(s)[p].orders[0] && f'.View().On(s) == HeadTraded(resting, step) by {
      FrontTradedView(f, s, p, step);
    }
    assert fill == Fill(resting[0].id, o.id, o.side.Opposite(), resting[0].price, Min(left, resting[0].quantity), f.next);
    HeadTradedFill(resting, f'.View().On(s), o, left, f.next, fill);
  }

  lemma HeadTradedFill(resting: seq<Order>, rest: seq<Order>, o: Order, left: nat, ts: nat, fill: Fill)
    requires resting != [] && left > 0 && Crosses(o, resting[0].price)
    requires rest == HeadTraded(resting, o.(quantity := left))
    requires fill == Fill(resting[0].id, o.id, o.side.Opposite(), resting[0].price, Min(left, resting[0].quantity), ts)
    ensures Trade(resting, rest, o, left, ts, fill)
  {
    HeadTradedContinues(resting, o.(quantity := left), ts);
  }

  /** One more trade on the way. */
  lemma AlongTrade(goal: Outcome, resting: seq<Order>, rest: seq<Order>, next: nat, o: Order, left: nat,
                   fills: seq<Fill>, fill: Fill)
    requires Along(goal, resting, next, o, left, fills)
    requires fill.quantity <= left && Trade(resting, rest, o, left, next, fill)
    ensures Along(goal, rest, next + 1, o, left - fill.quantity, fills + [fill])
  {
    SoFarStep(goal, fills, fill, Match(rest, o.(quantity := left - fill.quantity), next + 1));
  }

  lemma ProgressTrade(start: Fields, f: Fields, f': Fields, s: Side, o: Order, left: nat, fills: seq<Fill>, fill: Fill)
    requires Progress(start, f, s, o, left, fills)
    requires f'.On(s.Opposite()) == f.On(s.Opposite()) && f'.next == f.next + 1
    requires fill.quantity <= left && Trade(f.View().On(s), f'.View().On(s), o, left, f.next, fill)
    ensures Progress(start, f', s, o, left - fill.quantity, fills + [fill])
  {
    AlongTrade(Match(start.View().On(s), o, start.next), f.View().On(s), f'.View().On(s), f.next, o, left, fills, fill);
  }

  lemma FrontTradedProgress(start: Fields, f: Fields, s: Side, p: int, o: Order, left: nat, fills: seq<Fill>)
    requires f.Open(s, p) && f.On(s)[p].orders != []
    requires 0 < left && s == o.side.Opposite() && Crosses(o, p)
    requires Progress(start, f, s, o, left, fills)
    ensures var fill := FrontFill(f, s, p, o.id, left);
      Progress(start, f.FrontTraded(s, p, left), s, o, left - fill.quantity, fills + [fill])
  {
    var fill, f' := FrontFill(f, s, p, o.id, left), f.FrontTraded(s, p, left);
    FrontTradedMatch(f, s, p, o, left);
    FrontTradedLevels(f, s, p, o.(quantity := left));
    ProgressTrade(start, f, f', s, o, left, fills, fill);
  }

  lemma FrontPositive(f: Fields, s: Side, p: int)
    requires f.Open(s, p) && f.On(s)[p].orders != []
    ensures f.On(s)[p].orders[0].quantity > 0
  {
    FlatBest(s, f.On(s), p, f.On(s)[p]);
    assert f.On(s)[p].orders[0] == f.View().On(s)[0];
  }

  /** One round of the inner loop. */
  lemma FrontTradedStep(start: Fields, f: Fields, f': Fields, s: Side, p: int, o: Order, left: nat, fills: seq<Fill>, fill: Fill)
    requires f.Open(s, p) && f.On(s)[p].orders != []
    requires 0 < left && s == o.side.Opposite() && Crosses(o, p)
    requires Progress(start, f, s, o, left, fills)
    requires f' == f.FrontTraded(s, p, left) && fill == FrontFill(f, s, p, o.id, left)
    ensures f'.Open(s, p) && f'.On(s).Keys == f.On(s).Keys
    ensures 0 < fill.quantity <= left && Progress(start, f', s, o, left - fill.quantity, fills + [fill])
  {
    FrontPositive(f, s, p);
    FrontTradedOpen(f, s, p, o.(quantity := left));
    FrontTradedProgress(start, f, s, p, o, left, fills);
  }

  lemma ProgressDone(start: Fields, f: Fields, s: Side, o: Order, left: nat, fills: seq<Fill>)
    requires Progress(start, f, s, o, left, fills) && f.Valid()
    requires left == 0 || f.On(s) == map[] || !Crosses(o, Best(s, f.On(s)))
    ensures Match(start.View().On(s), o, start.next) == Outcome(fills, f.View().On(s), left)
  {
    if f.On(s) != map[] {
      FlatHeadPrice(s, f.On(s));
    }
  }

  /** A book that differs from b by the outcome of matching is the book once matching is over. */
  lemma MatchedIs(b: Book, o: Order, c: Book, fills: seq<Fill>, left: nat)
    requires Outcome(fills, c.On(o.side.Opposite()), left) == Match(b.On(o.side.Opposite()), o.(timestamp := b.next), b.next + 1)
    requires c.On(o.side) == b.On(o.side) && c.next == b.next + 1 + |fills|
    ensures c == Matched(b, o) && Trades(b, o).fills == fills
    ensures o.(timestamp := b.next).(quantity := left) == Remainder(b, o)
  {
  }

  function BestPrice(orders: seq<Order>): Option<int> {
    if orders == [] then None else Some(orders[0].price)
  }

  /** Moving the stamp counter forward keeps the fields valid. */
  lemma StampedValid(f: Fields)
    requires f.Valid()
    ensures f.(next := f.next + 1).Valid()
  {
    ValidLater(Buy, f.View().bids, f.next, f.next + 1);
    ValidLater(Sell, f.View().asks, f.next, f.next + 1);
  }

  /** The fields after the order r is queued at its price and indexed. */
  function Rested(f: Fields, r: Order): Fields {
    var level := LevelAt(f.On(r.side), r.price);
    f.With(r.side, f.On(r.side)[r.price := level.(orders := level.orders + [r])])
    .(index := f.index[r.id := (r.price, r.side)])
  }

  lemma RestedView(f: Fields, r: Order)
    requires f.Valid()
    ensures Rested(f, r).View() == f.View().With(r.side, Insert(r.side, f.View().On(r.side), r))
    ensures Keyed(Rested(f, r).On(r.side)) && NoEmptyLevel(Rested(f, r).On(r.side))
  {
    FlatInsert(r.side, f.On(r.side), r);
    RestedLevels(f, r);
    KeyedInsert(f.On(r.side), r);
  }

  /** Only the levels of the order's own side change. */
  lemma RestedLevels(f: Fields, r: Order)
    ensures var level := LevelAt(f.On(r.side), r.price); var g := Rested(f, r);
      && g.On(r.side) == f.On(r.side)[r.price := level.(orders := level.orders + [r])]
      && g.On(r.side.Opposite()) == f.On(r.side.Opposite()) && g.next == f.next
  {
  }

  lemma KeyedInsert(levels: Levels, r: Order)
    requires Keyed(levels) && NoEmptyLevel(levels)
    ensures var level := LevelAt(levels, r.price);
      var levels' := levels[r.price := level.(orders := level.orders + [r])];
      Keyed(levels') && NoEmptyLevel(levels')
  {
    assert LevelAt(levels, r.price).price == r.price;
  }

  lemma RestedIndex(f: Fields, r: Order)
    requires f.Valid() && r.id !in f.index
    ensures IndexExact(Rested(f, r).index, f.View().With(r.side, Insert(r.side, f.View().On(r.side), r)))
  {
    IndexGrows(f.index, f.View(), r);
  }

  lemma IndexGrows(index: Index, b: Book, r: Order)
    requires IndexExact(index, b) && r.id !in index
    ensures IndexExact(index[r.id := (r.price, r.side)], b.With(r.side, Insert(r.side, b.On(r.side), r)))
  {
    InsertIds(r.side, b.On(r.side), r);
    InsertMembers(r.side, b.On(r.side), r);
    assert forall o :: o in b.bids ==> o.id in b.RestingIds();
    assert forall o :: o in b.asks ==> o.id in b.RestingIds();
  }

  lemma RestedValid(f: Fields, r: Order)
    requires f.Valid() && r.id !in f.index && r.orderType == Limit && r.quantity > 0
    requires ValidSide(r.side, f.View().On(r.side), r.timestamp) && r.timestamp < f.next
    requires forall p :: p in Prices(f.View().On(r.side.Opposite())) ==> !Crosses(r, p)
    ensures Rested(f, r).Valid()
  {
    RestKeepsValid(f.View(), r);
    RestedView(f, r);
    RestedIndex(f, r);
  }

  /** Resting the remainder of a limit order completes a submission after matching. */
  lemma RestingCompletes(b: Book, f: Fields, o: Order)
    requires b.Valid() && f.Valid() && o.id !in b.RestingIds() && f.View() == Matched(b, o)
    ensures var r := Remainder(b, o);
      var f' := if r.quantity > 0 && r.orderType == Limit then Rested(f, r) else f;
      f'.Valid() && f'.View() == BookSpec.Submit(b, o).0
  {
    MatchedKeepsValid(b, o);
    var r := Remainder(b, o);
    if r.quantity > 0 && r.orderType == Limit {
      assert forall p :: p in Prices(f.View().On(o.side.Opposite())) ==> !Crosses(o, p) && !Crosses(r, p);
      RestedValid(f, r);
      RestedView(f, r);
    }
  }

  /** The fields after the order with this id is erased from its level and from the index. */
  function Erased(f: Fields, id: nat): Fields
    requires id in f.index && f.index[id].0 in f.On(f.index[id].1)
  {
    var (price, side) := f.index[id];
    var level := f.On(side)[price];
    var orders := Remove(level.orders, id);
    var levels := f.On(side)[price := level.(orders := orders)];
    f.With(side, if orders == [] then levels - {price} else levels).(index := f.index - {id})
  }

  /** Whenever the index holds an id, the level it names exists and holds the order. */
  lemma IndexedOrderFound(f: Fields, id: nat)
    requires f.Valid() && id in f.index
    ensures var (price, side) := f.index[id];
      && price in f.On(side)
      && id in Ids(f.On(side)[price].orders)
      && id in Ids(f.View().On(side)) && id !in Ids(f.View().On(side.Opposite()))
      && forall q :: q in f.On(side) && q != price ==> id !in Ids(f.On(side)[q].orders)
  {
    var b := f.View();
    var o :| (o in b.bids || o in b.asks) && o.id == id;
    var side := if o in b.bids then Buy else Sell;
    assert f.index[id] == (o.price, side);
    FlatMembers(side, f.On(side), o);
    forall q, x | q in f.On(side) && q != o.price && x in f.On(side)[q].orders ensures x.id != id {
      FlatMembers(side, f.On(side), x);
      var i :| 0 <= i < |b.On(side)| && b.On(side)[i] == o;
      var j :| 0 <= j < |b.On(side)| && b.On(side)[j] == x;
    }
  }

  lemma ErasedView(f: Fields, id: nat)
    requires f.Valid() && id in f.index
    ensures f.index[id].0 in f.On(f.index[id].1)
    ensures Erased(f, id).View() == Cancel(f.View(), id).0
    ensures Cancel(f.View(), id).1
  {
    IndexedOrderFound(f, id);
    var (price, side) := f.index[id];
    var level := f.On(side)[price];
    var orders := Remove(level.orders, id);
    FlatRemove(side, f.On(side), price, id);
    if orders == [] {
      FlatDropEmpty(side, f.On(side)[price := PriceLevel(price, orders)], price);
    }
    assert level.(orders := orders) == PriceLevel(price, orders);
  }

  lemma ErasedLevels(f: Fields, id: nat)
    requires f.Valid() && id in f.index
    ensures f.index[id].0 in f.On(f.index[id].1)
    ensures Keyed(Erased(f, id).bids) && NoEmptyLevel(Erased(f, id).bids)
    ensures Keyed(Erased(f, id).asks) && NoEmptyLevel(Erased(f, id).asks)
  {
    IndexedOrderFound(f, id);
    var (price, side) := f.index[id];
    KeyedErase(f.On(side), price, id);
  }

  lemma KeyedErase(levels: Levels, p: int, id: nat)
    requires Keyed(levels) && NoEmptyLevel(levels) && p in levels
    ensures var orders := Remove(levels[p].orders, id);
      var levels' := levels[p := levels[p].(orders := orders)];
      var levels'' := if orders == [] then levels' - {p} else levels';
      Keyed(levels'') && NoEmptyLevel(levels'')
  {
    var r := Remove(levels[p].orders, id);
    RemoveMembers(levels[p].orders, id);
    forall i | 0 <= i < |r| ensures r[i].price == p {
      assert r[i] in r;
    }
  }

  lemma ErasedIndex(index: Index, b: Book, id: nat)
    requires b.Valid() && IndexExact(index, b)
    ensures IndexExact(index - {id}, Cancel(b, id).0)
  {
    CancelIds(b, id);
    var c := Cancel(b, id).0;
    RemoveMembers(b.bids, id);
    RemoveMembers(b.asks, id);
    assert forall o :: o in c.bids ==> o.id in Ids(c.bids) && o in b.bids;
    assert forall o :: o in c.asks ==> o.id in Ids(c.asks) && o in b.asks;
  }

  lemma ErasedValid(f: Fields, id: nat)
    requires f.Valid() && id in f.index
    ensures f.index[id].0 in f.On(f.index[id].1)
    ensures Erased(f, id).Valid() && Erased(f, id).View() == Cancel(f.View(), id).0
  {
    ErasedView(f, id);
    ErasedLevels(f, id);
    ErasedIndex(f.index, f.View(), id);
    CancelKeepsValid(f.View(), id);
  }

  /** The limits that a submission respects, as the caller sees them. */
  lemma SubmitWithinLimit(b: Book, o: Order)
    requires b.Valid()
    ensures var (b', fills) := BookSpec.Submit(b, o);
      && (o.orderType == Limit ==>
            forall f :: f in fills ==> if o.side == Buy then f.price <= o.price else f.price >= o.price)
      && (o.id !in b.RestingIds() && Volume(fills) < o.quantity ==>
            && (o.side == Buy ==> forall x :: x in b'.asks ==> o.orderType == Limit && x.price > o.price)
            && (o.side == Sell ==> forall x :: x in b'.bids ==> o.orderType == Limit && x.price < o.price))
  {
    if o.orderType == Limit {
      FillsWithinLimit(b, o);
    }
    if o.id !in b.RestingIds() && Volume(BookSpec.Submit(b, o).1) < o.quantity {
      LeftoverUncrossed(b, o);
    }
  }

  class OrderBook {
    var bids: Levels
    var asks: Levels
    var orderIndex: Index
    var nextTimestamp: nat

    ghost function State(): Fields
      reads this
    {
      Fields(bids, asks, orderIndex, nextTimestamp)
    }

    /** The abstract book this object stands for. */
    ghost function View(): Book
      reads this
    {
      State().View()
    }

    ghost predicate Valid()
      reads this
    {
      State().Valid()
    }

    constructor ()
      ensures Valid() && View() == EmptyBook
    {
      bids, asks, orderIndex, nextTimestamp := map[], map[], map[], 0;
    }

    /** One trade: the front order of ask level p against an order of size left. */
    method TradeFrontAsk(p: int, incomingId: nat, left: nat) returns (fill: Fill)
      requires p in asks && asks[p].orders != []
      modifies this
      ensures State() == old(State()).FrontTraded(Sell, p, left)
      ensures fill == FrontFill(old(State()), Sell, p, incomingId, left)
    {
      var level := asks[p];
      var resting := level.orders[0];
      var traded := Min(left, resting.quantity);
      fill := Fill(resting.id, incomingId, Sell, level.price, traded, nextTimestamp);
      nextTimestamp := nextTimestamp + 1;
      if resting.quantity == traded {
        orderIndex := orderIndex - {resting.id};
        asks := asks[p := level.(orders := level.orders[1..])];
      } else {
        asks := asks[p := level.(orders := [resting.(quantity := resting.quantity - traded)] + level.orders[1..])];
      }
    }

    /** The body of the inner loop over ask level p. */
    method TradeOnceAsk(p: int, incoming: Order, quantity: nat, before: seq<Fill>, ghost start: Fields)
      returns (fills: seq<Fill>, left: nat)
      requires incoming.side == Buy && Crosses(incoming, p) && quantity > 0
      requires State().Open(Sell, p) && asks[p].orders != []
      requires Progress(start, State(), Sell, incoming, quantity, before)
      modifies this
      ensures State().Open(Sell, p) && asks.Keys == old(asks.Keys)
      ensures Progress(start, State(), Sell, incoming, left, fills)
      ensures left < quantity
    {
      ghost var f := State();
      var fill := TradeFrontAsk(p, incoming.id, quantity);
      ghost var f' := State();
      FrontTradedStep(start, f, f', Sell, p, incoming, quantity, before, fill);
      fills, left := before + [fill], quantity - fill.quantity;
    }

    /** Level p of the asks against what is left of a buy, front to back. */
    method MatchAskLevel(p: int, incoming: Order, quantity: nat, before: seq<Fill>, ghost start: Fields)
      returns (fills: seq<Fill>, left: nat)
      requires incoming.side == Buy && Crosses(incoming, p)
      requires State().Open(Sell, p) && Progress(start, State(), Sell, incoming, quantity, before)
      modifies this
      ensures State().Open(Sell, p) && Progress(start, State(), Sell, incoming, left, fills)
      ensures asks.Keys == old(asks.Keys) && left <= quantity
      ensures left == 0 || asks[p].orders == []
    {
      fills, left := before, quantity;
      while left > 0 && asks[p].orders != []
        invariant State().Open(Sell, p) && asks.Keys == old(asks.Keys)
        invariant Progress(start, State(), Sell, incoming, left, fills) && left <= quantity
      {
        fills, left := TradeOnceAsk(p, incoming, left, fills, start);
      }
    }

    /** Takes ask level p out if it has run empty. */
    method DropEmptyAsk(p: int)
      requires State().Open(Sell, p)
      modifies this
      ensures Valid() && View() == old(View()) && bids == old(bids) && nextTimestamp == old(nextTimestamp)
      ensures |asks| == old(|asks| - if asks[p].orders == [] then 1 else 0)
    {
      ClosedValid(State(), Sell, p);
      if asks[p].orders == [] {
        assert asks.Keys == (asks - {p}).Keys + {p};
        asks := asks - {p};
      }
    }

    method MatchBuy(incoming: Order) returns (fills: seq<Fill>, left: nat)
      requires Valid() && incoming.side == Buy
      modifies this
      ensures Valid() && bids == old(bids)
      ensures Outcome(fills, View().asks, left) == Match(old(View().asks), incoming, old(nextTimestamp))
      ensures nextTimestamp == old(nextTimestamp) + |fills|
    {
      fills, left := [], incoming.quantity;
      ghost var start, f := State(), State();
      ProgressStarts(start, Sell, incoming);
      while left > 0 && asks != map[]
        invariant State() == f && f.Valid() && Progress(start, f, Sell, incoming, left, fills)
        decreases |asks|, left
      {
        OpensBest(f, Sell);
        var p := Best(Sell, asks);
        if !(incoming.orderType == Market || incoming.price >= asks[p].price) {
          break;
        }
        fills, left := MatchAskLevel(p, incoming, left, fills, start);
        assert |asks.Keys| == |f.asks.Keys|;
        DropEmptyAsk(p);
        f := State();
      }
      ProgressDone(start, f, Sell, incoming, left, fills);
    }

    /** One trade: the front order of bid level p against an order of size left. */
    method TradeFrontBid(p: int, incomingId: nat, left: nat) returns (fill: Fill)
      requires p in bids && bids[p].orders != []
      modifies this
      ensures State() == old(State()).FrontTraded(Buy, p, left)
      ensures fill == FrontFill(old(State()), Buy, p, incomingId, left)
    {
      var level := bids[p];
      var resting := level.orders[0];
      var traded := Min(left, resting.quantity);
      fill := Fill(resting.id, incomingId, Buy, level.price, traded, nextTimestamp);
      nextTimestamp := nextTimestamp + 1;
      if resting.quantity == traded {
        orderIndex := orderIndex - {resting.id};
        bids := bids[p := level.(orders := level.orders[1..])];
      } else {
        bids := bids[p := level.(orders := [resting.(quantity := resting.quantity - traded)] + level.orders[1..])];
      }
    }

    /** The body of the inner loop over bid level p. */
    method TradeOnceBid(p: int, incoming: Order, quantity: nat, before: seq<Fill>, ghost start: Fields)
      returns (fills: seq<Fill>, left: nat)
      requires incoming.side == Sell && Crosses(incoming, p) && quantity > 0
      requires State().Open(Buy, p) && bids[p].orders != []
      requires Progress(start, State(), Buy, incoming, quantity, before)
      modifies this
      ensures State().Open(Buy, p) && bids.Keys == old(bids.Keys)
      ensures Progress(start, State(), Buy, incoming, left, fills)
      ensures left < quantity
    {
      ghost var f := State();
      var fill := TradeFrontBid(p, incoming.id, quantity);
      ghost var f' := State();
      FrontTradedStep(start, f, f', Buy, p, incoming, quantity, before, fill);
      fills, left := before + [fill], quantity - fill.quantity;
    }

    /** Level p of the bids against what is left of a sell, front to back. */
    method MatchBidLevel(p: int, incoming: Order, quantity: nat, before: seq<Fill>, ghost start: Fields)
      returns (fills: seq<Fill>, left: nat)
      requires incoming.side == Sell && Crosses(incoming, p)
      requires State().Open(Buy, p) && Progress(start, State(), Buy, incoming, quantity, before)
      modifies this
      ensures State().Open(Buy, p) && Progress(start, State(), Buy, incoming, left, fills)
      ensures bids.Keys == old(bids.Keys) && left <= quantity
      ensures left == 0 || bids[p].orders == []
    {
      fills, left := before, quantity;
      while left > 0 && bids[p].orders != []
        invariant State().Open(Buy, p) && bids.Keys == old(bids.Keys)
        invariant Progress(start, State(), Buy, incoming, left, fills) && left <= quantity
      {
        fills, left := TradeOnceBid(p, incoming, left, fills, start);
      }
    }

    /** Takes bid level p out if it has run empty. */
    method DropEmptyBid(p: int)
      requires State().Open(Buy, p)
      modifies this
      ensures Valid() && View() == old(View()) && asks == old(asks) && nextTimestamp == old(nextTimestamp)
      ensures |bids| == old(|bids| - if bids[p].orders == [] then 1 else 0)
    {
      ClosedValid(State(), Buy, p);
      if bids[p].orders == [] {
        assert bids.Keys == (bids - {p}).Keys + {p};
        bids := bids - {p};
      }
    }

    method MatchSell(incoming: Order) returns (fills: seq<Fill>, left: nat)
      requires Valid() && incoming.side == Sell
      modifies this
      ensures Valid() && asks == old(asks)
      ensures Outcome(fills, View().bids, left) == Match(old(View().bids), incoming, old(nextTimestamp))
      ensures nextTimestamp == old(nextTimestamp) + |fills|
    {
      fills, left := [], incoming.quantity;
      ghost var start, f := State(), State();
      ProgressStarts(start, Buy, incoming);
      while left > 0 && bids != map[]
        invariant State() == f && f.Valid() && Progress(start, f, Buy, incoming, left, fills)
        decreases |bids|, left
      {
        OpensBest(f, Buy);
        var p := Best(Buy, bids);
        if !(incoming.orderType == Market || incoming.price <= bids[p].price) {
          break;
        }
        fills, left := MatchBidLevel(p, incoming, left, fills, start);
        assert |bids.Keys| == |f.bids.Keys|;
        DropEmptyBid(p);
        f := State();
      }
      ProgressDone(start, f, Buy, incoming, left, fills);
    }

    /** Stamps an order and matches it against the opposite side. */
    method MatchIncoming(order: Order) returns (remainder: Order, fills: seq<Fill>)
      requires Valid()
      modifies this
      ensures Valid() && View() == Matched(old(View()), order)
      ensures remainder == Remainder(old(View()), order) && fills == Trades(old(View()), order).fills
    {
      ghost var b := View();
      StampedValid(State());
      var incoming, left := order.(timestamp := nextTimestamp), 0;
      nextTimestamp := nextTimestamp + 1;
      assert View() == b.(next := b.next + 1);
      if order.side == Buy {
        fills, left := MatchBuy(incoming);
      } else {
        fills, left := MatchSell(incoming);
      }
      remainder := incoming.(quantity := left);
      MatchedIs(b, order, View(), fills, left);
    }

    /** Queues what is left of a limit order at its price and indexes it. */
    method Rest(r: Order)
      modifies this
      ensures State() == Rested(old(State()), r)
    {
      if r.side == Buy {
        var level := LevelAt(bids, r.price);
        bids := bids[r.price := level.(orders := level.orders + [r])];
      } else {
        var level := LevelAt(asks, r.price);
        asks := asks[r.price := level.(orders := level.orders + [r])];
      }
      orderIndex := orderIndex[r.id := (r.price, r.side)];
    }

    /** Submits an order and returns its fills; an id that already rests is refused. */
    method Submit(order: Order) returns (fills: seq<Fill>)
      requires Valid()
      modifies this
      ensures Valid()
      ensures (View(), fills) == BookSpec.Submit(old(View()), order)
      ensures order.orderType == Limit ==>
        forall f :: f in fills ==> if order.side == Buy then f.price <= order.price else f.price >= order.price
      ensures order.id !in old(View()).RestingIds() && Volume(fills) < order.quantity ==>
        && (order.side == Buy ==> forall x :: x in View().asks ==> order.orderType == Limit && x.price > order.price)
        && (order.side == Sell ==> forall x :: x in View().bids ==> order.orderType == Limit && x.price < order.price)
    {
      ghost var b := View();
      SubmitWithinLimit(b, order);
      if order.id in orderIndex {
        return [];
      }
      var remainder;
      remainder, fills := MatchIncoming(order);
      RestingCompletes(b, State(), order);
      if remainder.quantity > 0 && remainder.orderType == Limit {
        Rest(remainder);
      }
    }

    /** Takes a resting order out. The level and the order the index points to are always there. */
    method Cancel(id: nat) returns (ok: bool)
      requires Valid()
      modifies this
      ensures Valid()
      ensures (View(), ok) == BookSpec.Cancel(old(View()), id)
    {
      if id !in orderIndex {
        return false;
      }
      ErasedValid(State(), id);
      ErasedView(State(), id);
      ghost var f := Erased(State(), id);
      var (price, side) := orderIndex[id];
      if side == Buy {
        var level := bids[price];
        var orders := Remove(level.orders, id);
        bids := bids[price := level.(orders := orders)];
        if orders == [] {
          bids := bids - {price};
        }
      } else {
        var level := asks[price];
        var orders := Remove(level.orders, id);
        asks := asks[price := level.(orders := orders)];
        if orders == [] {
          asks := asks - {price};
        }
      }
      orderIndex := orderIndex - {id};
      assert State() == f;
      ok := true;
    }

    predicate Contains(id: nat)
      reads this
      ensures Valid() ==> (Contains(id) <==> id in View().RestingIds())
    {
      id in orderIndex
    }

    /** The best bid is the price of the first order of the flat bid side. */
    function BestBid(): (r: Option<int>)
      requires Valid()
      reads this
      ensures r == BestPrice(View().bids)
      ensures r == None <==> View().bids == []
      ensures r != None ==>
        (exists o :: o in View().bids && o.price == r.value) && forall o :: o in View().bids ==> o.price <= r.value
    {
      ValidMeans(View());
      FlatEmpty(Buy, bids);
      if bids == map[] then None else FlatHeadPrice(Buy, bids); Some(Best(Buy, bids))
    }

    function BestAsk(): (r: Option<int>)
      requires Valid()
      reads this
      ensures r == BestPrice(View().asks)
      ensures r == None <==> View().asks == []
      ensures r != None ==>
        (exists o :: o in View().asks && o.price == r.value) && forall o :: o in View().asks ==> r.value <= o.price
    {
      ValidMeans(View());
      FlatEmpty(Sell, asks);
      if asks == map[] then None else FlatHeadPrice(Sell, asks); Some(Best(Sell, asks))
    }

    /** The best levels of both sides, at most depth of each. */
    method Snapshot(depth: nat) returns (bidSnapshot: seq<LevelSnapshot>, askSnapshot: seq<LevelSnapshot>)
      requires Valid()
      ensures IsSnapshot(Buy, View().bids, depth, bidSnapshot) && IsSnapshot(Sell, View().asks, depth, askSnapshot)
      ensures |bidSnapshot| <= depth && |askSnapshot| <= depth
      ensures forall j, k :: 0 <= j < k < |bidSnapshot| ==> bidSnapshot[j].price > bidSnapshot[k].price
      ensures forall j, k :: 0 <= j < k < |askSnapshot| ==> askSnapshot[j].price < askSnapshot[k].price
    {
      bidSnapshot := SideSnapshot(Buy, bids, depth);
      askSnapshot := SideSnapshot(Sell, asks, depth);
    }

    /** The book is never crossed or locked. */
    lemma BestBidBelowBestAsk()
      requires Valid()
      ensures BestBid().Some? && BestAsk().Some? ==> BestBid().value < BestAsk().value
    {
      if bids != map[] && asks != map[] {
        FlatHeadPrice(Buy, bids);
        FlatHeadPrice(Sell, asks);
        assert View().bids[0].price in Prices(View().bids) && View().asks[0].price in Prices(View().asks);
      }
    }
  }
}
