/** What an order book promises (engine/src/order_book.cpp), in prices, stamps and quantities alone:
    no order trades past its limit, nobody is passed over, what is left rests, and nothing else
    changes. */
module PriceTime {
  import opened Orders
  import opened Matching
  import opened BookSpec
  import opened BookLaws

  // ----- the shape of a match -----

  /** The fills take the front of the list, whole orders up to the last. */
  predicate FillsFront(resting: seq<Order>, o: Order, ts: nat, fills: seq<Fill>) {
    && |fills| <= |resting|
    && (forall i :: 0 <= i < |fills| ==>
          && fills[i] == Fill(resting[i].id, o.id, o.side.Opposite(), resting[i].price, fills[i].quantity, ts + i)
          && 0 < fills[i].quantity <= resting[i].quantity && Crosses(o, resting[i].price))
    && (forall i :: 0 <= i < |fills| - 1 ==> fills[i].quantity == resting[i].quantity)
  }

  /** The last of n orders has traded in part only. */
  predicate InPart(resting: seq<Order>, fills: seq<Fill>) {
    |fills| <= |resting| && fills != [] && fills[|fills| - 1].quantity < resting[|fills| - 1].quantity
  }

  /** The rest stays as it was. */
  predicate RestBehind(resting: seq<Order>, o: Order, m: Outcome) {
    var n := |m.fills|;
    && n <= |resting| && m.left == o.quantity - Volume(m.fills)
    && m.rest == (if InPart(resting, m.fills)
                  then [resting[n - 1].(quantity := resting[n - 1].quantity - m.fills[n - 1].quantity)] else [])
                 + resting[n..]
    && (InPart(resting, m.fills) ==> m.left == 0)
    && (m.left > 0 ==> n == |resting| || !Crosses(o, resting[n].price))
  }

  predicate TakesFront(resting: seq<Order>, o: Order, ts: nat, m: Outcome) {
    FillsFront(resting, o, ts, m.fills) && RestBehind(resting, o, m)
  }

  lemma FillsMore(resting: seq<Order>, o: Order, small: Order, ts: nat, f: Fill, fills: seq<Fill>)
    requires resting != [] && Crosses(o, resting[0].price) && 0 < resting[0].quantity
    requires small == o.(quantity := small.quantity) && FillsFront(resting[1..], small, ts + 1, fills)
    requires f == Fill(resting[0].id, o.id, o.side.Opposite(), resting[0].price, resting[0].quantity, ts)
    ensures FillsFront(resting, o, ts, [f] + fills)
  {
    var all := [f] + fills;
    assert forall i :: 0 < i < |all| ==> all[i] == fills[i - 1] && resting[i] == resting[1..][i - 1];
  }

  lemma RestMore(resting: seq<Order>, o: Order, small: Order, f: Fill, tail: Outcome)
    requires resting != [] && resting[0].quantity <= o.quantity && f.quantity == resting[0].quantity
    requires small == o.(quantity := o.quantity - resting[0].quantity) && RestBehind(resting[1..], small, tail)
    ensures RestBehind(resting, o, Outcome([f] + tail.fills, tail.rest, tail.left))
  {
    var all, n := [f] + tail.fills, |tail.fills|;
    assert all[1..] == tail.fills;
    assert resting[1..][n..] == resting[n + 1..];
    if n > 0 {
      assert all[n] == tail.fills[n - 1] && resting[n] == resting[1..][n - 1];
    }
  }

  lemma TakesMore(resting: seq<Order>, o: Order, small: Order, ts: nat, f: Fill, tail: Outcome)
    requires resting != [] && Crosses(o, resting[0].price) && 0 < resting[0].quantity <= o.quantity
    requires small == o.(quantity := o.quantity - resting[0].quantity)
    requires f == Fill(resting[0].id, o.id, o.side.Opposite(), resting[0].price, resting[0].quantity, ts)
    requires TakesFront(resting[1..], small, ts + 1, tail)
    ensures TakesFront(resting, o, ts, Outcome([f] + tail.fills, tail.rest, tail.left))
  {
    FillsMore(resting, o, small, ts, f, tail.fills);
    RestMore(resting, o, small, f, tail);
  }

  lemma {:induction false} MatchTakesFront(resting: seq<Order>, o: Order, ts: nat)
    requires forall i :: 0 <= i < |resting| ==> resting[i].quantity > 0
    ensures TakesFront(resting, o, ts, Match(resting, o, ts))
    decreases |resting|
  {
    if o.quantity == 0 || resting == [] || !Crosses(o, resting[0].price) {
      TakesNothing(resting, o, ts);
    } else if o.quantity < resting[0].quantity {
      TakesOne(resting, o, ts, Match(resting, o, ts));
    } else {
      var small := o.(quantity := o.quantity - resting[0].quantity);
      var tail := Match(resting[1..], small, ts + 1);
      MatchTakesFront(resting[1..], small, ts + 1);
      PastHead(resting, resting[1..], o, small, ts, tail);
      TakesMore(resting, o, small, ts, HeadFill(resting[0], o, ts), tail);
    }
  }

  lemma TakesNothing(resting: seq<Order>, o: Order, ts: nat)
    requires o.quantity == 0 || resting == [] || !Crosses(o, resting[0].price)
    ensures TakesFront(resting, o, ts, Outcome([], resting, o.quantity))
  {
  }

  lemma TakesOne(resting: seq<Order>, o: Order, ts: nat, m: Outcome)
    requires resting != [] && Crosses(o, resting[0].price) && 0 < o.quantity < resting[0].quantity
    requires m == Outcome([Fill(resting[0].id, o.id, o.side.Opposite(), resting[0].price, o.quantity, ts)],
                          [resting[0].(quantity := resting[0].quantity - o.quantity)] + resting[1..], 0)
    ensures TakesFront(resting, o, ts, m)
  {
    assert m.fills[1..] == [];
  }

  // ----- limits -----

  lemma MatchWithinLimit(resting: seq<Order>, o: Order, ts: nat)
    requires o.orderType == Limit && forall i :: 0 <= i < |resting| ==> resting[i].quantity > 0
    ensures forall f :: f in Match(resting, o, ts).fills ==> if o.side == Buy then f.price <= o.price else f.price >= o.price
  {
    MatchTakesFront(resting, o, ts);
  }

  lemma MatchLeft(resting: seq<Order>, o: Order, ts: nat)
    requires forall i :: 0 <= i < |resting| ==> resting[i].quantity > 0
    ensures Volume(Match(resting, o, ts).fills) <= o.quantity
    ensures Match(resting, o, ts).left == o.quantity - Volume(Match(resting, o, ts).fills)
  {
    MatchTakesFront(resting, o, ts);
  }

  /** The fills and the other side after a submission are those of the match. */
  lemma FillsAre(b: Book, o: Order)
    ensures Submit(b, o).1
         == if o.id in b.RestingIds() then [] else Match(b.On(o.side.Opposite()), o.(timestamp := b.next), b.next + 1).fills
  {
  }

  lemma OtherSideIs(b: Book, o: Order)
    requires o.id !in b.RestingIds()
    ensures Submit(b, o).0.On(o.side.Opposite())
         == Match(b.On(o.side.Opposite()), o.(timestamp := b.next), b.next + 1).rest
  {
  }

  /** No order trades past its limit. */
  lemma FillsWithinLimit(b: Book, o: Order)
    requires b.Valid() && o.orderType == Limit
    ensures forall f :: f in Submit(b, o).1 ==> if o.side == Buy then f.price <= o.price else f.price >= o.price
  {
    FillsAre(b, o);
    MatchWithinLimit(b.On(o.side.Opposite()), o.(timestamp := b.next), b.next + 1);
  }

  lemma MatchLeaves(s: Side, resting: seq<Order>, o: Order, ts: nat, next: nat)
    requires ValidSide(s, resting, next) && s == o.side.Opposite() && Match(resting, o, ts).left > 0
    ensures forall x :: x in Match(resting, o, ts).rest ==>
      o.orderType == Limit && if o.side == Buy then x.price > o.price else x.price < o.price
  {
    MatchKeepsSide(s, resting, o, ts, next);
    forall x | x in Match(resting, o, ts).rest ensures !Crosses(o, x.price) {
      assert x.price in Prices(Match(resting, o, ts).rest);
    }
  }

  /** And it takes all it may: with quantity left, a market order has emptied the other side, and what
      still rests there is beyond a limit order's price. */
  lemma LeftoverUncrossed(b: Book, o: Order)
    requires b.Valid() && o.id !in b.RestingIds() && Volume(Submit(b, o).1) < o.quantity
    ensures o.side == Buy ==> forall x :: x in Submit(b, o).0.asks ==> o.orderType == Limit && x.price > o.price
    ensures o.side == Sell ==> forall x :: x in Submit(b, o).0.bids ==> o.orderType == Limit && x.price < o.price
  {
    var opp, incoming := o.side.Opposite(), o.(timestamp := b.next);
    FillsAre(b, o);
    OtherSideIs(b, o);
    MatchLeft(b.On(opp), incoming, b.next + 1);
    MatchLeaves(opp, b.On(opp), incoming, b.next + 1, b.next);
  }

  // ----- priority -----

  /** The two sides are listed in that order, each order there limited, alive and stamped in the past;
      ids are distinct and every bid is below every ask. */
  lemma ValidMeans(b: Book)
    requires b.Valid()
    ensures forall i, j :: 0 <= i < j < |b.bids| ==>
      b.bids[i].price > b.bids[j].price || (b.bids[i].price == b.bids[j].price && b.bids[i].timestamp < b.bids[j].timestamp)
    ensures forall i, j :: 0 <= i < j < |b.asks| ==>
      b.asks[i].price < b.asks[j].price || (b.asks[i].price == b.asks[j].price && b.asks[i].timestamp < b.asks[j].timestamp)
    ensures forall x :: x in b.bids ==> x.side == Buy && x.orderType == Limit && x.quantity > 0 && x.timestamp < b.next
    ensures forall x :: x in b.asks ==> x.side == Sell && x.orderType == Limit && x.quantity > 0 && x.timestamp < b.next
    ensures forall x, y :: x in b.bids && y in b.asks ==> x.price < y.price && x.id != y.id
  {
    forall x, y | x in b.bids && y in b.asks ensures x.price < y.price && x.id != y.id {
      assert x.price in Prices(b.bids) && y.price in Prices(b.asks);
      assert x.id in Ids(b.bids) && y.id in Ids(b.asks);
    }
  }

  lemma AheadIsEarlier(s: Side, resting: seq<Order>, next: nat, i: nat, j: nat)
    requires ValidSide(s, resting, next) && i < |resting| && j < |resting|
    requires (if s == Sell then resting[i].price < resting[j].price else resting[i].price > resting[j].price)
      || (resting[i].price == resting[j].price && resting[i].timestamp < resting[j].timestamp)
    ensures i < j
  {
    assert j < i ==> Precedes(s, resting[j], resting[i]);
  }

  lemma AheadIsFilled(resting: seq<Order>, o: Order, ts: nat, m: Outcome, i: nat, j: nat, k: nat)
    requires TakesFront(resting, o, ts, m) && DistinctIds(resting)
    requires i < j < |resting| && k < |m.fills| && m.fills[k].restingId == resting[j].id
    ensures i < |m.fills| && m.fills[i].restingId == resting[i].id && m.fills[i].quantity == resting[i].quantity
  {
    assert resting[k].id == resting[j].id && k == j;
  }

  /** Nobody is passed over: when an order trades, every order ahead of it has traded in full. */
  lemma PriceTimePriority(b: Book, o: Order, x: Order, y: Order, f: Fill)
    requires b.Valid() && x in b.On(o.side.Opposite()) && y in b.On(o.side.Opposite())
    requires (if o.side == Buy then x.price < y.price else x.price > y.price)
      || (x.price == y.price && x.timestamp < y.timestamp)
    requires f in Submit(b, o).1 && f.restingId == y.id
    ensures FilledInFull(Submit(b, o).1, x)
  {
    FillsAre(b, o);
    AheadFilled(o.side.Opposite(), b.On(o.side.Opposite()), o.(timestamp := b.next), b.next + 1, b.next, x, y,
                Submit(b, o).1, f);
  }

  /** Some fill trades all that the order had. */
  predicate FilledInFull(fills: seq<Fill>, x: Order) {
    exists f :: f in fills && f.restingId == x.id && f.quantity == x.quantity
  }

  lemma AheadFilled(s: Side, resting: seq<Order>, o: Order, ts: nat, next: nat, x: Order, y: Order, fills: seq<Fill>, f: Fill)
    requires ValidSide(s, resting, next) && x in resting && y in resting
    requires (if s == Sell then x.price < y.price else x.price > y.price)
      || (x.price == y.price && x.timestamp < y.timestamp)
    requires fills == Match(resting, o, ts).fills && f in fills && f.restingId == y.id
    ensures FilledInFull(fills, x)
  {
    var i :| 0 <= i < |resting| && resting[i] == x;
    var j :| 0 <= j < |resting| && resting[j] == y;
    var k :| 0 <= k < |fills| && fills[k] == f;
    MatchTakesFront(resting, o, ts);
    AheadIsEarlier(s, resting, next, i, j);
    AheadIsFilled(resting, o, ts, Match(resting, o, ts), i, j, k);
    assert fills[i] in fills;
  }

  // ----- fills -----

  lemma MatchFillsMean(s: Side, resting: seq<Order>, o: Order, ts: nat, next: nat, i: nat)
    requires ValidSide(s, resting, next) && i < |Match(resting, o, ts).fills|
    ensures var f := Match(resting, o, ts).fills[i];
      && f.incomingId == o.id && f.timestamp == ts + i && f.restingSide == (if o.side == Buy then Sell else Buy)
      && exists x :: x in resting && x.id == f.restingId && x.price == f.price && 0 < f.quantity <= x.quantity
  {
    MatchTakesFront(resting, o, ts);
    assert resting[i] in resting;
  }

  lemma MatchFillsDistinct(s: Side, resting: seq<Order>, o: Order, ts: nat, next: nat)
    requires ValidSide(s, resting, next)
    ensures var fills := Match(resting, o, ts).fills;
      forall i, j :: 0 <= i < j < |fills| ==> fills[i].restingId != fills[j].restingId
  {
    MatchTakesFront(resting, o, ts);
  }

  /** What every fill says: who came in, when, against which side, and at the resting order's price for
      no more than it had. No resting order fills twice. */
  lemma FillsMean(b: Book, o: Order)
    requires b.Valid()
    ensures var fills, resting := Submit(b, o).1, if o.side == Buy then b.asks else b.bids;
      && (forall i :: 0 <= i < |fills| ==>
            && fills[i].incomingId == o.id && fills[i].timestamp == b.next + 1 + i
            && fills[i].restingSide == (if o.side == Buy then Sell else Buy)
            && exists x :: x in resting && x.id == fills[i].restingId && x.price == fills[i].price
                           && 0 < fills[i].quantity <= x.quantity)
      && (forall i, j :: 0 <= i < j < |fills| ==> fills[i].restingId != fills[j].restingId)
  {
    if o.id !in b.RestingIds() {
      var s, incoming, fills := o.side.Opposite(), o.(timestamp := b.next), Submit(b, o).1;
      assert fills == Match(b.On(s), incoming, b.next + 1).fills;
      forall i | 0 <= i < |fills|
        ensures fills[i].incomingId == o.id && fills[i].timestamp == b.next + 1 + i
        ensures fills[i].restingSide == (if o.side == Buy then Sell else Buy)
        ensures exists x :: x in b.On(s) && x.id == fills[i].restingId && x.price == fills[i].price
                            && 0 < fills[i].quantity <= x.quantity
      {
        MatchFillsMean(s, b.On(s), incoming, b.next + 1, b.next, i);
      }
      MatchFillsDistinct(s, b.On(s), incoming, b.next + 1, b.next);
    }
  }

  // ----- what rests afterwards -----

  lemma RemainderIs(b: Book, o: Order)
    requires b.Valid() && o.id !in b.RestingIds()
    ensures Volume(Submit(b, o).1) <= o.quantity
    ensures Remainder(b, o) == Order(o.id, o.side, o.orderType, o.price, o.quantity - Volume(Submit(b, o).1), b.next)
  {
    FillsAre(b, o);
    MatchLeft(b.On(o.side.Opposite()), o.(timestamp := b.next), b.next + 1);
  }

  lemma OwnSideHolds(b: Book, o: Order, x: Order)
    requires o.id !in b.RestingIds()
    ensures var r := Remainder(b, o);
      x in Submit(b, o).0.On(o.side) <==> x in b.On(o.side) || (r.quantity > 0 && o.orderType == Limit && x == r)
  {
    InsertMembers(o.side, b.On(o.side), Remainder(b, o));
  }

  /** On its own side an accepted order adds what is left of it, if it is a limit order, with the
      stamp of its arrival; an id that rests is refused. */
  lemma OwnSideAfter(b: Book, o: Order, x: Order)
    requires b.Valid()
    ensures o.id in b.RestingIds() ==> Submit(b, o) == (b, [])
    ensures o.id !in b.RestingIds() ==>
      var left := o.quantity - Volume(Submit(b, o).1);
      var rests := o.orderType == Limit && left > 0 && x == Order(o.id, o.side, Limit, o.price, left, b.next);
      && (o.side == Buy ==> (x in Submit(b, o).0.bids <==> x in b.bids || rests))
      && (o.side == Sell ==> (x in Submit(b, o).0.asks <==> x in b.asks || rests))
  {
    if o.id !in b.RestingIds() {
      RemainderIs(b, o);
      OwnSideHolds(b, o, x);
    }
  }

  lemma {:induction false} TakenFromNone(fills: seq<Fill>, id: nat)
    requires forall i :: 0 <= i < |fills| ==> fills[i].restingId != id
    ensures TakenFrom(fills, id) == 0
  {
    if fills != [] {
      TakenFromNone(fills[1..], id);
    }
  }

  lemma {:induction false} TakenFromOne(fills: seq<Fill>, k: nat)
    requires k < |fills| && forall i, j :: 0 <= i < j < |fills| ==> fills[i].restingId != fills[j].restingId
    ensures TakenFrom(fills, fills[k].restingId) == fills[k].quantity
  {
    if k == 0 {
      TakenFromNone(fills[1..], fills[0].restingId);
    } else {
      TakenFromOne(fills[1..], k - 1);
    }
  }

  lemma TakenAt(s: Side, resting: seq<Order>, o: Order, ts: nat, next: nat, i: nat)
    requires ValidSide(s, resting, next) && i < |resting|
    ensures var fills := Match(resting, o, ts).fills;
      |fills| <= |resting| && TakenFrom(fills, resting[i].id) == if i < |fills| then fills[i].quantity else 0
  {
    MatchTakesFront(resting, o, ts);
    var fills := Match(resting, o, ts).fills;
    if i < |fills| {
      TakenFromOne(fills, i);
    } else {
      TakenFromNone(fills, resting[i].id);
    }
  }

  /** x is what stays of an order of the list, given what was taken. */
  predicate StaysOf(orders: seq<Order>, fills: seq<Fill>, x: Order) {
    exists y :: y in orders && TakenFrom(fills, y.id) < y.quantity && x == y.(quantity := y.quantity - TakenFrom(fills, y.id))
  }

  lemma AllStays(orders: seq<Order>, x: Order)
    requires forall y :: y in orders ==> y.quantity > 0
    ensures x in orders <==> StaysOf(orders, [], x)
  {
    assert forall y: Order :: y.(quantity := y.quantity - 0) == y;
    if x in orders {
      assert TakenFrom([], x.id) < x.quantity && x == x.(quantity := x.quantity - TakenFrom([], x.id));
    }
  }

  /** On the other side every order stays with what has not been taken from it, or goes. */
  lemma OtherSideAfter(b: Book, o: Order, x: Order)
    requires b.Valid()
    ensures o.side == Buy ==> (x in Submit(b, o).0.asks <==> StaysOf(b.asks, Submit(b, o).1, x))
    ensures o.side == Sell ==> (x in Submit(b, o).0.bids <==> StaysOf(b.bids, Submit(b, o).1, x))
  {
    if o.id in b.RestingIds() {
      AllStays(b.On(o.side.Opposite()), x);
    } else {
      var opp, incoming := o.side.Opposite(), o.(timestamp := b.next);
      MatchLeavesUntaken(opp, b.On(opp), incoming, b.next + 1, b.next, x);
      FillsAre(b, o);
      OtherSideIs(b, o);
    }
  }

  /** The rest of the list is its end, the orders reduced by what they traded. */
  lemma RestIndexOf(resting: seq<Order>, o: Order, ts: nat, m: Outcome, k: nat) returns (j: nat)
    requires TakesFront(resting, o, ts, m) && k < |m.rest| && forall i :: 0 <= i < |resting| ==> resting[i].quantity > 0
    ensures |m.rest| <= |resting| && j == k + |resting| - |m.rest|
    ensures var taken := if j < |m.fills| then m.fills[j].quantity else 0;
      taken < resting[j].quantity && m.rest[k] == resting[j].(quantity := resting[j].quantity - taken)
  {
    j := k + |resting| - |m.rest|;
  }

  lemma GoneAt(resting: seq<Order>, o: Order, ts: nat, m: Outcome, j: nat)
    requires TakesFront(resting, o, ts, m) && |m.rest| <= |resting| && j < |resting| - |m.rest|
    ensures j < |m.fills| && m.fills[j].quantity == resting[j].quantity
  {
  }

  lemma RestFrom(s: Side, resting: seq<Order>, o: Order, ts: nat, next: nat, k: nat) returns (j: nat)
    requires ValidSide(s, resting, next) && k < |Match(resting, o, ts).rest|
    ensures var m := Match(resting, o, ts);
      && |m.rest| <= |resting| && j == k + |resting| - |m.rest|
      && TakenFrom(m.fills, resting[j].id) < resting[j].quantity
      && m.rest[k] == resting[j].(quantity := resting[j].quantity - TakenFrom(m.fills, resting[j].id))
  {
    var m := Match(resting, o, ts);
    j := RestIndex(resting, o, ts, k);
    var taken := if j < |m.fills| then m.fills[j].quantity else 0;
    TakenAt(s, resting, o, ts, next, j);
    assert TakenFrom(m.fills, resting[j].id) == taken;
  }

  lemma RestIndex(resting: seq<Order>, o: Order, ts: nat, k: nat) returns (j: nat)
    requires k < |Match(resting, o, ts).rest| && forall i :: 0 <= i < |resting| ==> resting[i].quantity > 0
    ensures var m := Match(resting, o, ts);
      && |m.rest| <= |resting| && j == k + |resting| - |m.rest|
      && var taken := if j < |m.fills| then m.fills[j].quantity else 0;
         taken < resting[j].quantity && m.rest[k] == resting[j].(quantity := resting[j].quantity - taken)
  {
    MatchTakesFront(resting, o, ts);
    j := RestIndexOf(resting, o, ts, Match(resting, o, ts), k);
  }

  lemma LeftIsUntaken(s: Side, resting: seq<Order>, o: Order, ts: nat, next: nat, x: Order)
    requires ValidSide(s, resting, next) && x in Match(resting, o, ts).rest
    ensures StaysOf(resting, Match(resting, o, ts).fills, x)
  {
    var m := Match(resting, o, ts);
    var k :| 0 <= k < |m.rest| && m.rest[k] == x;
    var j := RestFrom(s, resting, o, ts, next, k);
    var y := resting[j];
    assert y in resting && TakenFrom(m.fills, y.id) < y.quantity && x == y.(quantity := y.quantity - TakenFrom(m.fills, y.id));
  }

  /** Orders in front of the rest have traded in full. */
  lemma GoneIsTaken(s: Side, resting: seq<Order>, o: Order, ts: nat, next: nat, j: nat)
    requires ValidSide(s, resting, next) && j + |Match(resting, o, ts).rest| < |resting|
    ensures TakenFrom(Match(resting, o, ts).fills, resting[j].id) == resting[j].quantity
  {
    MatchTakesFront(resting, o, ts);
    GoneAt(resting, o, ts, Match(resting, o, ts), j);
    TakenAt(s, resting, o, ts, next, j);
  }

  lemma UntakenIsLeft(s: Side, resting: seq<Order>, o: Order, ts: nat, next: nat, y: Order)
    requires ValidSide(s, resting, next) && y in resting && TakenFrom(Match(resting, o, ts).fills, y.id) < y.quantity
    ensures var m := Match(resting, o, ts); y.(quantity := y.quantity - TakenFrom(m.fills, y.id)) in m.rest
  {
    var m := Match(resting, o, ts);
    var j :| 0 <= j < |resting| && resting[j] == y;
    if j + |m.rest| < |resting| {
      GoneIsTaken(s, resting, o, ts, next, j);
    } else {
      var k := j + |m.rest| - |resting|;
      var at := RestFrom(s, resting, o, ts, next, k);
      assert m.rest[k] in m.rest && at == j;
    }
  }

  lemma MatchLeavesUntaken(s: Side, resting: seq<Order>, o: Order, ts: nat, next: nat, x: Order)
    requires ValidSide(s, resting, next)
    ensures x in Match(resting, o, ts).rest <==> StaysOf(resting, Match(resting, o, ts).fills, x)
  {
    if x in Match(resting, o, ts).rest {
      LeftIsUntaken(s, resting, o, ts, next, x);
    }
    if StaysOf(resting, Match(resting, o, ts).fills, x) {
      StaysIsLeft(s, resting, o, ts, next, x);
    }
  }

  lemma StaysIsLeft(s: Side, resting: seq<Order>, o: Order, ts: nat, next: nat, x: Order)
    requires ValidSide(s, resting, next) && StaysOf(resting, Match(resting, o, ts).fills, x)
    ensures x in Match(resting, o, ts).rest
  {
    var m := Match(resting, o, ts);
    var y :| y in resting && TakenFrom(m.fills, y.id) < y.quantity && x == y.(quantity := y.quantity - TakenFrom(m.fills, y.id));
    UntakenIsLeft(s, resting, o, ts, next, y);
  }
}
