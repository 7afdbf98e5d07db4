/** Corrective market orders, worked through the book: the risk limit's flatten order
    (risk/src/limits.rs) and the delta hedger (strategy/orderbook_client/delta_hedger.py). */
module Consumers {
  import opened Orders
  import opened Matching
  import opened BookSpec
  import opened Position

  datatype FlattenAction = FlattenAction(side: Side, quantity: nat)

  /** The flatten order that a breach calls for; the quantity is cast to 32 bits. */
  function CheckBreach(maxAbsPosition: int, net: int): (r: Option<FlattenAction>)
    ensures r == None <==> -maxAbsPosition <= net <= maxAbsPosition
    ensures r != None && net > 0 ==> r.value == FlattenAction(Sell, net % 0x1_0000_0000)
    ensures r != None && net <= 0 ==> r.value == FlattenAction(Buy, (0 - net) % 0x1_0000_0000)
  {
    if Abs(net) <= maxAbsPosition then None
    else Some(FlattenAction(if net > 0 then Sell else Buy, Abs(net) % TWO_32))
  }

  function MarketOrder(id: nat, side: Side, quantity: nat): Order {
    Order(id, side, Market, 0, quantity, 0)
  }

  /** A fill as the incoming side sees it. */
  function Seen(f: Fill): Trade {
    Trade(f.restingSide.Opposite(), f.quantity, f.price)
  }

  function SeenAll(fills: seq<Fill>): (trades: seq<Trade>)
    ensures |trades| == |fills|
    ensures forall i :: 0 <= i < |fills| ==> trades[i] == Seen(fills[i])
  {
    seq(|fills|, i requires 0 <= i < |fills| => Seen(fills[i]))
  }

  function SignOf(s: Side): int {
    if s == Buy then 1 else -1
  }

  /** Fills of one incoming order all trade in its direction. */
  lemma {:induction false} SignedVolume(fills: seq<Fill>, s: Side)
    requires forall i :: 0 <= i < |fills| ==> fills[i].restingSide == s.Opposite()
    ensures SignedSum(SeenAll(fills)) == SignOf(s) * Volume(fills)
    decreases |fills|
  {
    if fills != [] {
      var n := |fills| - 1;
      SignedVolume(fills[..n], s);
      assert SeenAll(fills)[..n] == SeenAll(fills[..n]);
      assert fills == fills[..n] + [fills[n]];
      VolumeAppend(fills[..n], [fills[n]]);
      assert [fills[n]][1..] == [];
    }
  }

  lemma {:induction false} AllCross(resting: seq<Order>, o: Order)
    requires o.orderType == Market
    ensures CrossingQuantity(resting, o) == Quantity(resting)
  {
    if resting != [] {
      AllCross(resting[1..], o);
    }
  }

  /** What a market order trades on a side. */
  lemma MarketMatch(s: Side, resting: seq<Order>, o: Order, ts: nat, next: nat)
    requires ValidSide(s, resting, next) && s == o.side.Opposite() && o.orderType == Market
    ensures var fills := Match(resting, o, ts).fills;
      && Volume(fills) == Min(o.quantity, Quantity(resting))
      && forall i :: 0 <= i < |fills| ==>
           fills[i].incomingId == o.id && fills[i].quantity > 0 && fills[i].restingSide == s
  {
    AllocationLaw(s, resting, o, ts, next);
    AllCross(resting, o);
  }

  /** An accepted market order trades the smaller of its size and what rests on the other side, in
      its own direction. */
  lemma MarketVolume(b: Book, id: nat, s: Side, quantity: nat)
    requires b.Valid() && id !in b.RestingIds()
    ensures var fills := Submit(b, MarketOrder(id, s, quantity)).1;
      && Volume(fills) == Min(quantity, Quantity(b.On(s.Opposite())))
      && SignedSum(SeenAll(fills)) == SignOf(s) * Volume(fills)
      && forall i :: 0 <= i < |fills| ==> fills[i].incomingId == id && fills[i].quantity > 0
  {
    var o := MarketOrder(id, s, quantity);
    var incoming := o.(timestamp := b.next);
    MarketMatch(s.Opposite(), b.On(s.Opposite()), incoming, b.next + 1, b.next);
    var fills := Submit(b, o).1;
    assert fills == Match(b.On(s.Opposite()), incoming, b.next + 1).fills;
    SignedVolume(fills, s);
  }

  /** The tracker folded over trades, from any account. */
  function TrackAll(a: Account, trades: TradeRun): Account {
    if trades == [] then a else Tracked(TrackAll(a, trades[..|trades| - 1]), trades[|trades| - 1])
  }

  lemma {:induction false} TrackAllNet(a: Account, trades: TradeRun)
    ensures TrackAll(a, trades).net == a.net + SignedSum(trades)
  {
    if trades != [] {
      PositiveInit(trades);
      TrackAllNet(a, trades[..|trades| - 1]);
    }
  }

  /** The fills of an accepted flatten order leave the tracker short of zero by what the 32-bit cast
      cut off and what the book could not fill. */
  lemma FlattenNet(b: Book, id: nat, maxAbsPosition: int, a: Account)
    requires b.Valid() && id !in b.RestingIds() && CheckBreach(maxAbsPosition, a.net).Some?
    ensures var action := CheckBreach(maxAbsPosition, a.net).value;
      var trades := SeenAll(Submit(b, MarketOrder(id, action.side, action.quantity)).1);
      && Positive(trades)
      && TrackAll(a, trades).net
         == a.net + SignOf(action.side) * Min(Abs(a.net) % TWO_32, Quantity(b.On(action.side.Opposite())))
  {
    var action := CheckBreach(maxAbsPosition, a.net).value;
    MarketVolume(b, id, action.side, action.quantity);
    TrackAllNet(a, SeenAll(Submit(b, MarketOrder(id, action.side, action.quantity)).1));
  }

  /** Flattening: folding the fills of an accepted flatten order through the tracker gives a net
      position of exactly zero if and only if the position fits in 32 bits and the other side of the
      book holds enough; and in any case it never flips the position. */
  lemma FlattenReachesZero(b: Book, id: nat, maxAbsPosition: int, a: Account)
    requires b.Valid() && id !in b.RestingIds() && CheckBreach(maxAbsPosition, a.net).Some?
    ensures var action := CheckBreach(maxAbsPosition, a.net).value;
      var trades := SeenAll(Submit(b, MarketOrder(id, action.side, action.quantity)).1);
      && Positive(trades)
      && var after := TrackAll(a, trades).net;
      && (after == 0 <==> Abs(a.net) < TWO_32 && Abs(a.net) <= Quantity(b.On(action.side.Opposite())))
      && Abs(after) <= Abs(a.net) && (after == 0 || Sign(after) == Sign(a.net))
  {
    var action := CheckBreach(maxAbsPosition, a.net).value;
    FlattenNet(b, id, maxAbsPosition, a);
    Shortfall(a.net, action.side, Quantity(b.On(action.side.Opposite())));
  }

  lemma Shortfall(net: int, side: Side, liquidity: nat)
    requires side == if net > 0 then Sell else Buy
    ensures var after := net + SignOf(side) * Min(Abs(net) % TWO_32, liquidity);
      && (after == 0 <==> Abs(net) < TWO_32 && Abs(net) <= liquidity)
      && Abs(after) <= Abs(net) && (after == 0 || Sign(after) == Sign(net))
  {
    var traded := Min(Abs(net) % TWO_32, liquidity);
    CutToWidth(Abs(net), liquidity, traded);
    Towards(net, side, traded);
  }

  lemma CutToWidth(size: nat, liquidity: nat, traded: nat)
    requires traded == Min(size % TWO_32, liquidity)
    ensures traded <= size && (traded == size <==> size < TWO_32 && size <= liquidity)
  {
  }

  /** Trading against a position, at most its size. */
  lemma Towards(net: int, side: Side, traded: nat)
    requires side == (if net > 0 then Sell else Buy) && traded <= Abs(net)
    ensures var after := net + SignOf(side) * traded;
      && Abs(after) == Abs(net) - traded
      && (after == 0 || Sign(after) == Sign(net))
  {
    assert SignOf(side) * traded == if net > 0 then 0 - traded else traded;
  }

  // ----- the delta hedger -----

  datatype Hedge = Hedge(band: int, nextId: nat, position: int, mine: set<nat>, errors: seq<int>, rehedges: nat)

  /** One tick with the rounded target position: the hedger afterwards and its order, if any. */
  function OnPrice(h: Hedge, target: int): (Hedge, Option<Order>) {
    var error := h.position - target;
    var seen := h.(errors := h.errors + [error]);
    if Abs(error) <= h.band then (seen, None)
    else
      (seen.(nextId := h.nextId + 1, mine := h.mine + {h.nextId}, rehedges := h.rehedges + 1),
       Some(MarketOrder(h.nextId, if error > 0 then Sell else Buy, Abs(error))))
  }

  function OnFill(h: Hedge, f: Fill): Hedge {
    if f.incomingId in h.mine then h.(position := h.position + Seen(f).Signed()) else h
  }

  /** A price inside the band only records the error; outside it a market order for the whole error goes
      out, against it, under the next id. */
  lemma OnPriceMeans(h: Hedge, target: int)
    ensures var (h', order) := OnPrice(h, target);
      var error := h.position - target;
      && h'.errors == h.errors + [error] && h'.position == h.position && h'.band == h.band
      && (order == None <==> -h.band <= error <= h.band)
      && (order == None ==> h' == h.(errors := h'.errors))
      && (order != None && error > 0 ==> order.value == Order(h.nextId, Sell, Market, 0, error, 0))
      && (order != None && error <= 0 ==> order.value == Order(h.nextId, Buy, Market, 0, 0 - error, 0))
      && (order != None ==> h'.nextId == h.nextId + 1 && h'.mine == h.mine + {h.nextId} && h'.rehedges == h.rehedges + 1)
  {
  }

  /** A fill of an order of its own moves the position, up if a sell rested and down if a buy did. */
  lemma OnFillMeans(h: Hedge, f: Fill)
    ensures var moved := if f.restingSide == Sell then f.quantity else 0 - f.quantity;
      OnFill(h, f) == if f.incomingId in h.mine then h.(position := h.position + moved) else h
  {
  }

  function OnFills(h: Hedge, fills: seq<Fill>): Hedge {
    if fills == [] then h else OnFill(OnFills(h, fills[..|fills| - 1]), fills[|fills| - 1])
  }

  class DeltaHedger {
    const hedgeBand: int
    var ids: nat
    var currentFuturesPosition: int
    var myOrderIds: set<nat>
    var hedgeErrorHistory: seq<int>
    var rehedgeCount: nat

    ghost function State(): Hedge
      reads this
    {
      Hedge(hedgeBand, ids, currentFuturesPosition, myOrderIds, hedgeErrorHistory, rehedgeCount)
    }

    constructor (band: int)
      ensures State() == Hedge(band, 1, 0, {}, [], 0)
    {
      hedgeBand, ids, currentFuturesPosition, myOrderIds, hedgeErrorHistory, rehedgeCount := band, 1, 0, {}, [], 0;
    }

    method Price(target: int) returns (order: Option<Order>)
      modifies this
      ensures (State(), order) == OnPrice(old(State()), target)
    {
      var hedgeError := currentFuturesPosition - target;
      hedgeErrorHistory := hedgeErrorHistory + [hedgeError];
      if Abs(hedgeError) <= hedgeBand {
        return None;
      }
      rehedgeCount := rehedgeCount + 1;
      var orderId := ids;
      ids := ids + 1;
      myOrderIds := myOrderIds + {orderId};
      order := Some(MarketOrder(orderId, if hedgeError > 0 then Sell else Buy, Abs(hedgeError)));
    }

    method FillEvent(f: Fill)
      modifies this
      ensures State() == OnFill(old(State()), f)
    {
      if f.incomingId !in myOrderIds {
        return;
      }
      var quantity: int := f.quantity;
      currentFuturesPosition := currentFuturesPosition + if f.restingSide == Sell then quantity else -quantity;
    }
  }

  /** The position after fills of one's own. */
  function NetAfter(net: int, fills: seq<Fill>): int {
    net + SignedSum(SeenAll(fills))
  }

  lemma {:induction false} MyFills(h: Hedge, fills: seq<Fill>)
    requires forall i :: 0 <= i < |fills| ==> fills[i].incomingId in h.mine
    ensures OnFills(h, fills) == h.(position := NetAfter(h.position, fills))
    decreases |fills|
  {
    if fills != [] {
      var n := |fills| - 1;
      MyFills(h, fills[..n]);
      assert SeenAll(fills)[..n] == SeenAll(fills[..n]);
    }
  }

  /** The hedger's position after one tick whose order, if any, was worked through the book and whose
      fills were all delivered. */
  function Hedged(h: Hedge, b: Book, target: int): Hedge {
    var (h', order) := OnPrice(h, target);
    if order == None then h' else OnFills(h', Submit(b, order.value).1)
  }

  /** A hedge order moves the position by what the book can fill of it. */
  lemma HedgedBy(h: Hedge, b: Book, target: int, s: Side)
    requires b.Valid() && h.nextId !in b.RestingIds()
    requires var error := h.position - target; Abs(error) > h.band && s == if error > 0 then Sell else Buy
    ensures Hedged(h, b, target).position
         == h.position + SignOf(s) * Min(Abs(h.position - target), Quantity(b.On(s.Opposite())))
  {
    var (h', order) := OnPrice(h, target);
    MarketVolume(b, h.nextId, s, Abs(h.position - target));
    MyFills(h', Submit(b, order.value).1);
  }

  /** After the tick the position is within the band of the rounded target if and only if the other
      side of the book held all but a band's worth of the hedge error. If the order was needed and
      filled in full, the position is exactly the target. */
  lemma HedgedWithinBand(h: Hedge, b: Book, target: int)
    requires b.Valid() && h.nextId !in b.RestingIds() && h.band >= 0
    ensures var error := h.position - target;
      var liquidity := Quantity(b.On(if error > 0 then Buy else Sell));
      && (Abs(Hedged(h, b, target).position - target) <= h.band
          <==> Abs(error) <= liquidity + h.band)
      && (h.band < Abs(error) <= liquidity ==> Hedged(h, b, target).position == target)
  {
    var error := h.position - target;
    if Abs(error) > h.band {
      var s := if error > 0 then Sell else Buy;
      HedgedBy(h, b, target, s);
      Towards(error, s, Min(Abs(error), Quantity(b.On(s.Opposite()))));
    }
  }

  // ----- the hedger over a run -----

  /** What one tick brings: the rounded target and the book that the order, if any, meets. */
  datatype HedgeTick = HedgeTick(target: int, book: Book)

  function HedgeRun(h: Hedge, ticks: seq<HedgeTick>): Hedge {
    if ticks == [] then h
    else
      var t := ticks[|ticks| - 1];
      Hedged(HedgeRun(h, ticks[..|ticks| - 1]), t.book, t.target)
  }

  /** The book takes the order that the hedger would send now. */
  ghost predicate Takes(h: Hedge, t: HedgeTick) {
    t.book.Valid() && h.nextId !in t.book.RestingIds()
  }

  /** The book holds all but a band's worth of the hedge error. */
  predicate Suffices(h: Hedge, t: HedgeTick) {
    var error := h.position - t.target;
    Abs(error) <= Quantity(t.book.On(if error > 0 then Buy else Sell)) + h.band
  }

  predicate WithinBand(h: Hedge, target: int) {
    Abs(h.position - target) <= h.band
  }

  lemma {:induction false} FillsKeepBand(h: Hedge, fills: seq<Fill>)
    ensures OnFills(h, fills).band == h.band
    decreases |fills|
  {
    if fills != [] {
      FillsKeepBand(h, fills[..|fills| - 1]);
    }
  }

  lemma HedgedKeepsBand(h: Hedge, b: Book, target: int)
    ensures Hedged(h, b, target).band == h.band
  {
    var (h', order) := OnPrice(h, target);
    if order != None {
      FillsKeepBand(h', Submit(b, order.value).1);
    }
  }

  lemma {:induction false} RunKeepsBand(h: Hedge, ticks: seq<HedgeTick>)
    ensures HedgeRun(h, ticks).band == h.band
  {
    if ticks != [] {
      var t := ticks[|ticks| - 1];
      RunKeepsBand(h, ticks[..|ticks| - 1]);
      HedgedKeepsBand(HedgeRun(h, ticks[..|ticks| - 1]), t.book, t.target);
    }
  }

  /** After tick i of any run the position is within the band of that tick's target exactly when the
      tick's book sufficed. */
  lemma TickOfRun(h: Hedge, ticks: seq<HedgeTick>, i: nat)
    requires h.band >= 0 && i < |ticks| && Takes(HedgeRun(h, ticks[..i]), ticks[i])
    ensures WithinBand(HedgeRun(h, ticks[..i + 1]), ticks[i].target) <==> Suffices(HedgeRun(h, ticks[..i]), ticks[i])
  {
    var before, t := HedgeRun(h, ticks[..i]), ticks[i];
    assert ticks[..i + 1][..i] == ticks[..i];
    RunKeepsBand(h, ticks[..i]);
    HedgedKeepsBand(before, t.book, t.target);
    HedgedWithinBand(before, t.book, t.target);
  }

  /** Over any sequence of targets and books the position is within the band of the target after
      every tick if and only if every tick's book sufficed. */
  lemma HedgedThroughout(h: Hedge, ticks: seq<HedgeTick>)
    requires h.band >= 0
    requires forall i :: 0 <= i < |ticks| ==> Takes(HedgeRun(h, ticks[..i]), ticks[i])
    ensures (forall i :: 0 <= i < |ticks| ==> WithinBand(HedgeRun(h, ticks[..i + 1]), ticks[i].target))
      <==> (forall i :: 0 <= i < |ticks| ==> Suffices(HedgeRun(h, ticks[..i]), ticks[i]))
  {
    forall i | 0 <= i < |ticks|
      ensures WithinBand(HedgeRun(h, ticks[..i + 1]), ticks[i].target) <==> Suffices(HedgeRun(h, ticks[..i]), ticks[i])
    {
      TickOfRun(h, ticks, i);
    }
  }
}
