/** The closed loop of quoter and book: in a session with no one else, what the quoter believes to
    rest covers what rests, however late it hears of fills. */
module ClosedLoop {
  import opened Orders
  import opened Matching
  import opened BookSpec
  import opened BookLaws
  import opened OrderBooks
  import opened Quoter

  // ----- what the quoter believes, against what rests -----

  /** The ids the quoter believes to rest, with price and side, in the form of the book's index. */
  function Beliefs(q: Quotes): Index {
    (if q.buy == None then map[] else map[q.buy.value.id := (q.buy.value.price, Buy)])
    + (if q.sell == None then map[] else map[q.sell.value.id := (q.sell.value.price, Sell)])
  }

  function TradedIds(fills: seq<Fill>): set<nat> {
    (set f | f in fills :: f.restingId) + (set f | f in fills :: f.incomingId)
  }

  lemma TradedAppend(a: seq<Fill>, b: seq<Fill>)
    ensures TradedIds(a + b) == TradedIds(a) + TradedIds(b)
  {
    assert forall f :: f in a + b <==> f in a || f in b;
  }

  /** Every order of the list is believed to rest at its price and side, and has its full size. */
  ghost predicate Believed(orders: seq<Order>, s: Side, beliefs: Index, size: nat) {
    forall o :: o in orders ==> o.id in beliefs && beliefs[o.id] == (o.price, s) && o.quantity == size
  }

  /** Everything that rests is believed; whatever is believed but does not rest has traded; traded
      ids never rest again; new ids are fresh. */
  ghost predicate Tracked(b: Book, fills: seq<Fill>, beliefs: Index, size: nat, next: nat) {
    && b.Valid()
    && Believed(b.bids, Buy, beliefs, size)
    && Believed(b.asks, Sell, beliefs, size)
    && beliefs.Keys <= b.RestingIds() + TradedIds(fills)
    && TradedIds(fills) !! b.RestingIds()
    && (forall id :: id in beliefs ==> id < next)
    && (forall id :: id in TradedIds(fills) ==> id < next)
  }

  /** A whole order against whole orders of the same size either trades once, completely, with the
      best of them, or rests. */
  lemma SubmitSameSize(b: Book, o: Order)
    requires b.Valid() && o.id !in b.RestingIds() && o.orderType == Limit && o.quantity > 0
    requires forall x :: x in b.On(o.side.Opposite()) ==> x.quantity == o.quantity
    ensures var (b', fills) := Submit(b, o); var opp := b.On(o.side.Opposite());
      || (&& fills == [] && b'.On(o.side.Opposite()) == opp
          && b'.On(o.side) == Insert(o.side, b.On(o.side), o.(timestamp := b.next)))
      || (&& |fills| == 1 && fills[0].incomingId == o.id && opp != [] && fills[0].restingId == opp[0].id
          && b'.On(o.side.Opposite()) == opp[1..] && b'.On(o.side) == b.On(o.side))
  {
    var opp, incoming := b.On(o.side.Opposite()), o.(timestamp := b.next);
    if opp != [] && Crosses(incoming, opp[0].price) {
      assert opp[0] in opp;
      assert Match(opp[1..], incoming.(quantity := 0), b.next + 2) == Outcome([], opp[1..], 0);
    } else {
      assert Trades(b, o) == Outcome([], opp, o.quantity);
      assert Remainder(b, o) == incoming;
    }
  }

  lemma BelievedIds(orders: seq<Order>, s: Side, beliefs: Index, size: nat)
    requires Believed(orders, s, beliefs, size)
    ensures Ids(orders) <= beliefs.Keys
  {
  }

  /** A new belief about an id that does not rest disturbs no other. */
  lemma BelievedStays(orders: seq<Order>, s: Side, beliefs: Index, size: nat, id: nat, belief: (int, Side))
    requires Believed(orders, s, beliefs, size) && id !in Ids(orders)
    ensures Believed(orders, s, beliefs[id := belief], size)
    ensures Believed(orders, s, beliefs - {id}, size)
  {
    forall o | o in orders ensures o.id != id {
      assert o.id in Ids(orders);
    }
  }

  /** The two sides of a valid tracked book, one of them named. */
  lemma TrackedSides(b: Book, s: Side, fills: seq<Fill>, beliefs: Index, size: nat, next: nat)
    requires Tracked(b, fills, beliefs, size, next)
    ensures Believed(b.On(s), s, beliefs, size)
    ensures forall id :: id in b.RestingIds() ==> id < next
  {
    BelievedIds(b.bids, Buy, beliefs, size);
    BelievedIds(b.asks, Sell, beliefs, size);
  }

  lemma TrackRests(b: Book, b': Book, fills: seq<Fill>, beliefs: Index, size: nat, next: nat, o: Order)
    requires Tracked(b, fills, beliefs, size, next) && b'.Valid()
    requires o.id >= next && o.quantity == size
    requires b'.On(o.side) == Insert(o.side, b.On(o.side), o.(timestamp := b.next))
    requires b'.On(o.side.Opposite()) == b.On(o.side.Opposite())
    ensures Tracked(b', fills, beliefs[o.id := (o.price, o.side)], size, o.id + 1)
  {
    var s, opp, beliefs' := o.side, o.side.Opposite(), beliefs[o.id := (o.price, o.side)];
    TrackedSides(b, s, fills, beliefs, size, next);
    TrackedSides(b, opp, fills, beliefs, size, next);
    BelievedStays(b.On(s), s, beliefs, size, o.id, (o.price, s));
    BelievedStays(b.On(opp), opp, beliefs, size, o.id, (o.price, s));
    InsertIds(s, b.On(s), o.(timestamp := b.next));
    InsertMembers(s, b.On(s), o.(timestamp := b.next));
    assert Believed(b'.On(s), s, beliefs', size) && Believed(b'.On(opp), opp, beliefs', size);
    assert b'.RestingIds() == b.RestingIds() + {o.id};
  }

  lemma TradeBelieved(b: Book, b': Book, fills: seq<Fill>, beliefs: Index, size: nat, next: nat, o: Order)
    requires Tracked(b, fills, beliefs, size, next) && o.id >= next && b.On(o.side.Opposite()) != []
    requires b'.On(o.side) == b.On(o.side) && b'.On(o.side.Opposite()) == b.On(o.side.Opposite())[1..]
    ensures var beliefs' := beliefs[o.id := (o.price, o.side)];
      && Believed(b'.bids, Buy, beliefs', size) && Believed(b'.asks, Sell, beliefs', size)
      && forall id :: id in b.RestingIds() ==> id < next
  {
    var s, opp := o.side, o.side.Opposite();
    TrackedSides(b, s, fills, beliefs, size, next);
    TrackedSides(b, opp, fills, beliefs, size, next);
    BelievedStays(b.On(s), s, beliefs, size, o.id, (o.price, s));
    BelievedStays(b.On(opp), opp, beliefs, size, o.id, (o.price, s));
  }

  /** The filled head leaves the book. */
  lemma HeadLeaves(b: Book, b': Book, s: Side)
    requires b.Valid() && b.On(s) != []
    requires b'.On(s) == b.On(s)[1..] && b'.On(s.Opposite()) == b.On(s.Opposite())
    ensures b.On(s)[0].id in b.RestingIds()
    ensures b'.RestingIds() == b.RestingIds() - {b.On(s)[0].id}
  {
    ValidUncons(s, b.On(s), b.next);
    IdsCons(b.On(s));
  }

  lemma TradedOne(fills: seq<Fill>, f: Fill)
    ensures TradedIds(fills + [f]) == TradedIds(fills) + {f.restingId, f.incomingId}
  {
    TradedAppend(fills, [f]);
    assert TradedIds([f]) == {f.restingId, f.incomingId};
  }

  /** What one trade does to the three sets of ids. */
  lemma IdsAfterTrade(believed: set<nat>, resting: set<nat>, traded: set<nat>, filled: nat, id: nat, next: nat)
    requires believed <= resting + traded && traded !! resting && filled in resting
    requires (forall x :: x in believed ==> x < next) && (forall x :: x in traded ==> x < next)
    requires (forall x :: x in resting ==> x < next) && id >= next
    ensures believed + {id} <= (resting - {filled}) + (traded + {filled, id})
    ensures traded + {filled, id} !! resting - {filled}
    ensures (forall x :: x in believed + {id} ==> x < id + 1) && (forall x :: x in traded + {filled, id} ==> x < id + 1)
  {
  }

  lemma TrackTrades(b: Book, b': Book, fills: seq<Fill>, f: Fill, beliefs: Index, size: nat, next: nat, o: Order)
    requires Tracked(b, fills, beliefs, size, next) && b'.Valid()
    requires o.id >= next && b.On(o.side.Opposite()) != []
    requires f.incomingId == o.id && f.restingId == b.On(o.side.Opposite())[0].id
    requires b'.On(o.side) == b.On(o.side) && b'.On(o.side.Opposite()) == b.On(o.side.Opposite())[1..]
    ensures Tracked(b', fills + [f], beliefs[o.id := (o.price, o.side)], size, o.id + 1)
  {
    TradeBelieved(b, b', fills, beliefs, size, next, o);
    HeadLeaves(b, b', o.side.Opposite());
    TradedOne(fills, f);
    IdsAfterTrade(beliefs.Keys, b.RestingIds(), TradedIds(fills), f.restingId, o.id, next);
    assert beliefs[o.id := (o.price, o.side)].Keys == beliefs.Keys + {o.id};
  }

  lemma TrackPlace(b: Book, fills: seq<Fill>, beliefs: Index, size: nat, next: nat, o: Order)
    requires Tracked(b, fills, beliefs, size, next)
    requires o.id >= next && o.orderType == Limit && o.quantity == size && size > 0
    ensures var (b', more) := Submit(b, o);
      Tracked(b', fills + more, beliefs[o.id := (o.price, o.side)], size, o.id + 1)
  {
    TrackedSides(b, o.side.Opposite(), fills, beliefs, size, next);
    var (b', more) := Submit(b, o);
    SubmitSameSize(b, o);
    SubmitKeepsValid(b, o);
    if more == [] {
      assert fills + more == fills;
      TrackRests(b, b', fills, beliefs, size, next, o);
    } else {
      assert more == [more[0]];
      TrackTrades(b, b', fills, more[0], beliefs, size, next, o);
    }
  }

  lemma TrackPull(b: Book, fills: seq<Fill>, beliefs: Index, size: nat, next: nat, id: nat)
    requires Tracked(b, fills, beliefs, size, next)
    ensures Tracked(Cancel(b, id).0, fills, beliefs - {id}, size, next)
  {
    var c := Cancel(b, id).0;
    CancelKeepsValid(b, id);
    CancelIds(b, id);
    RemoveMembers(b.bids, id);
    RemoveMembers(b.asks, id);
    assert Believed(c.bids, Buy, beliefs, size) && Believed(c.asks, Sell, beliefs, size);
    BelievedStays(c.bids, Buy, beliefs, size, id, (0, Buy));
    BelievedStays(c.asks, Sell, beliefs, size, id, (0, Buy));
  }

  // ----- a whole tick -----

  /** What the quoter should believe after sending a command. */
  function After(beliefs: Index, c: Command): Index {
    match c
    case SubmitOrder(o) => beliefs[o.id := (o.price, o.side)]
    case CancelOrder(id) => beliefs - {id}
  }

  function Expect(beliefs: Index, commands: seq<Command>): Index
    decreases |commands|
  {
    if commands == [] then beliefs else Expect(After(beliefs, commands[0]), commands[1..])
  }

  /** The next fresh id after a command. */
  function Fresh(next: nat, c: Command): nat {
    if c.SubmitOrder? then c.order.id + 1 else next
  }

  /** A command places a whole order with a fresh id, or cancels. */
  predicate Proper(c: Command, size: nat, next: nat) {
    c.SubmitOrder? ==> c.order.id >= next && c.order.orderType == Limit && c.order.quantity == size
  }

  predicate Orderly(commands: seq<Command>, size: nat, next: nat, end: nat)
    decreases |commands|
  {
    if commands == [] then next <= end
    else Proper(commands[0], size, next) && Orderly(commands[1..], size, Fresh(next, commands[0]), end)
  }

  lemma TrackStep(b: Book, fills: seq<Fill>, beliefs: Index, size: nat, next: nat, c: Command)
    requires Tracked(b, fills, beliefs, size, next) && Proper(c, size, next) && size > 0
    ensures Tracked(Step(b, c).0, fills + Step(b, c).1, After(beliefs, c), size, Fresh(next, c))
  {
    match c {
      case SubmitOrder(o) => TrackPlace(b, fills, beliefs, size, next, o);
      case CancelOrder(id) =>
        TrackPull(b, fills, beliefs, size, next, id);
        assert fills + [] == fills;
    }
  }

  lemma {:induction false} TrackCommands(b: Book, fills: seq<Fill>, beliefs: Index, size: nat, next: nat, end: nat,
          commands: seq<Command>)
    requires Tracked(b, fills, beliefs, size, next) && Orderly(commands, size, next, end) && size > 0
    ensures Tracked(Run(b, commands).0, fills + Run(b, commands).1, Expect(beliefs, commands), size, end)
    decreases |commands|
  {
    if commands == [] {
      assert fills + [] == fills;
    } else {
      var c := commands[0];
      var (b1, first) := Step(b, c);
      TrackStep(b, fills, beliefs, size, next, c);
      TrackCommands(b1, fills + first, After(beliefs, c), size, Fresh(next, c), end, commands[1..]);
      AppendAppend(fills, first, Run(b1, commands[1..]).1);
    }
  }

  lemma {:induction false} ExpectAppend(beliefs: Index, a: seq<Command>, b: seq<Command>)
    ensures Expect(beliefs, a + b) == Expect(Expect(beliefs, a), b)
    decreases |a|
  {
    if a == [] {
      assert a + b == b;
    } else {
      assert (a + b)[0] == a[0] && (a + b)[1..] == a[1..] + b;
      ExpectAppend(After(beliefs, a[0]), a[1..], b);
    }
  }

  lemma {:induction false} OrderlyAppend(a: seq<Command>, b: seq<Command>, size: nat, next: nat, mid: nat, end: nat)
    requires Orderly(a, size, next, mid) && Orderly(b, size, mid, end)
    ensures Orderly(a + b, size, next, end)
    decreases |a|
  {
    if a == [] {
      assert a + b == b;
      OrderlyLater(b, size, next, mid, end);
    } else {
      assert (a + b)[0] == a[0] && (a + b)[1..] == a[1..] + b;
      OrderlyAppend(a[1..], b, size, Fresh(next, a[0]), mid, end);
    }
  }

  lemma {:induction false} OrderlyLater(b: seq<Command>, size: nat, next: nat, mid: nat, end: nat)
    requires next <= mid && Orderly(b, size, mid, end)
    ensures Orderly(b, size, next, end)
    decreases |b|
  {
    if b != [] && !b[0].SubmitOrder? {
      OrderlyLater(b[1..], size, next, mid, end);
    }
  }

  lemma RequoteCommands(q: Quotes, s: Side, price: int, beliefs: Index, next: nat)
    ensures var (q', place, pull) := Requote(q, s, price);
      && Orderly(place, q.size, q.nextId, q'.nextId) && Orderly(pull, q.size, next, next)
      && Expect(beliefs, place) == (if q.Stale(s, price) then beliefs[q.nextId := (q.Target(s, price), s)] else beliefs)
      && Expect(beliefs, pull) == if q.Stale(s, price) && q.On(s) != None then beliefs - {q.On(s).value.id} else beliefs
  {
    var (q', place, pull) := Requote(q, s, price);
    if q.Stale(s, price) {
      assert place[1..] == [];
      if q.On(s) != None {
        assert pull[1..] == [];
      }
    }
  }

  lemma OnPriceOrderly(q: Quotes, price: int)
    requires q.Valid()
    ensures var (q', actions) := OnPrice(q, price);
      q'.Valid() && q'.size == q.size && Orderly(actions, q.size, q.nextId, q'.nextId)
  {
    var (q1, buys, buyPulls) := Requote(q, Buy, price);
    var (q2, sells, sellPulls) := Requote(q1, Sell, price);
    RequoteCommands(q, Buy, price, map[], q2.nextId);
    RequoteCommands(q1, Sell, price, map[], q2.nextId);
    OrderlyAppend(buys, sells, q.size, q.nextId, q1.nextId, q2.nextId);
    OrderlyAppend(buyPulls, sellPulls, q.size, q2.nextId, q2.nextId, q2.nextId);
    OrderlyAppend(buys + sells, buyPulls + sellPulls, q.size, q.nextId, q2.nextId, q2.nextId);
  }

  lemma ExpectInOrder(e0: Index, a: seq<Command>, e1: Index, b: seq<Command>, e2: Index,
        c: seq<Command>, e3: Index, d: seq<Command>, e4: Index)
    requires Expect(e0, a) == e1 && Expect(e1, b) == e2 && Expect(e2, c) == e3 && Expect(e3, d) == e4
    ensures Expect(e0, a + b + (c + d)) == e4
  {
    ExpectAppend(e0, a, b);
    ExpectAppend(e2, c, d);
    ExpectAppend(e0, a + b, c + d);
  }

  /** What is believed after placing, and after pulling, on one side. */
  function Placed(e: Index, q: Quotes, s: Side, price: int): Index {
    if q.Stale(s, price) then e[q.nextId := (q.Target(s, price), s)] else e
  }

  function Pulled(e: Index, q: Quotes, s: Side, price: int): Index {
    if q.Stale(s, price) && q.On(s) != None then e - {q.On(s).value.id} else e
  }

  lemma CommandsExpect(q: Quotes, price: int)
    ensures var q1 := Requote(q, Buy, price).0;
      Expect(Beliefs(q), OnPrice(q, price).1)
        == Pulled(Pulled(Placed(Placed(Beliefs(q), q, Buy, price), q1, Sell, price), q, Buy, price), q1, Sell, price)
  {
    var (q1, buys, buyPulls) := Requote(q, Buy, price);
    var (q2, sells, sellPulls) := Requote(q1, Sell, price);
    var e0 := Beliefs(q);
    var e1 := Placed(e0, q, Buy, price);
    var e2 := Placed(e1, q1, Sell, price);
    var e3 := Pulled(e2, q, Buy, price);
    RequoteCommands(q, Buy, price, e0, 0);
    RequoteCommands(q1, Sell, price, e1, 0);
    RequoteCommands(q, Buy, price, e2, 0);
    RequoteCommands(q1, Sell, price, e3, 0);
    ExpectInOrder(e0, buys, e1, sells, e2, buyPulls, e3, sellPulls, Pulled(e3, q1, Sell, price));
  }

  lemma BeliefsRequoted(q: Quotes, price: int)
    requires q.Valid()
    ensures var q1 := Requote(q, Buy, price).0;
      Beliefs(OnPrice(q, price).0)
        == Pulled(Pulled(Placed(Placed(Beliefs(q), q, Buy, price), q1, Sell, price), q, Buy, price), q1, Sell, price)
  {
  }

  /** The quoter's own bookkeeping on a tick is what its commands lead to. */
  lemma OnPriceExpects(q: Quotes, price: int)
    requires q.Valid()
    ensures Expect(Beliefs(q), OnPrice(q, price).1) == Beliefs(OnPrice(q, price).0)
  {
    CommandsExpect(q, price);
    BeliefsRequoted(q, price);
  }

  /** Being told of a fill takes the resting id, and only that, out of what is believed. */
  lemma OnFillForgets(q: Quotes, f: Fill)
    requires q.Valid()
    ensures var q' := OnFill(q, f);
      q'.Valid() && q'.size == q.size && q'.nextId == q.nextId && Beliefs(q') == Beliefs(q) - {f.restingId}
  {
  }

  lemma IdsTold(fills: seq<Fill>)
    requires fills != []
    ensures (set f | f in fills :: f.restingId) == {fills[0].restingId} + set f | f in fills[1..] :: f.restingId
  {
    assert fills == [fills[0]] + fills[1..];
  }

  lemma {:induction false} OnFillsForget(q: Quotes, fills: seq<Fill>)
    requires q.Valid()
    ensures var q' := OnFills(q, fills);
      && q'.Valid() && q'.size == q.size && q'.nextId == q.nextId
      && Beliefs(q') == Beliefs(q) - (set f | f in fills :: f.restingId)
    decreases |fills|
  {
    if fills != [] {
      OnFillForgets(q, fills[0]);
      OnFillsForget(OnFill(q, fills[0]), fills[1..]);
      IdsTold(fills);
    }
  }

  /** The invariant of the closed loop: the beliefs track the book, and no fill the quoter has been
      told of concerns an order it still believes to rest. */
  ghost predicate InStep(s: Session) {
    && s.quotes.Valid() && s.quotes.size > 0
    && s.told <= |s.fills|
    && Tracked(s.book, s.fills, Beliefs(s.quotes), s.quotes.size, s.quotes.nextId)
    && forall i :: 0 <= i < s.told ==> s.fills[i].restingId !in Beliefs(s.quotes)
  }

  /** Forgetting ids that have traded and do not rest keeps the rest tracked. */
  lemma TrackedForget(b: Book, fills: seq<Fill>, beliefs: Index, size: nat, next: nat, gone: set<nat>)
    requires Tracked(b, fills, beliefs, size, next) && gone <= TradedIds(fills)
    ensures Tracked(b, fills, beliefs - gone, size, next)
  {
    forall o | o in b.bids ensures o.id !in gone {
      assert o.id in b.RestingIds();
    }
    forall o | o in b.asks ensures o.id !in gone {
      assert o.id in b.RestingIds();
    }
  }

  /** What delivering fills changes. */
  lemma Drained(s: Session, count: nat, gone: set<nat>)
    requires s.quotes.Valid() && s.told <= |s.fills|
    requires gone == set f | f in s.fills[s.told..Min(s.told + count, |s.fills|)] :: f.restingId
    ensures var d := Drain(s, count);
      && d.book == s.book && d.fills == s.fills && s.told <= d.told
      && d.quotes.Valid() && d.quotes.size == s.quotes.size && d.quotes.nextId == s.quotes.nextId
      && Beliefs(d.quotes) == Beliefs(s.quotes) - gone
      && gone <= TradedIds(s.fills)
      && forall i :: s.told <= i < d.told ==> s.fills[i].restingId in gone
  {
    var upTo := Min(s.told + count, |s.fills|);
    OnFillsForget(s.quotes, s.fills[s.told..upTo]);
    BatchIds(s.fills, s.told, upTo, gone);
  }

  lemma BatchIds(fills: seq<Fill>, from: nat, to: nat, ids: set<nat>)
    requires from <= to <= |fills| && ids == set f | f in fills[from..to] :: f.restingId
    ensures ids <= TradedIds(fills) && forall i :: from <= i < to ==> fills[i].restingId in ids
  {
    var batch := fills[from..to];
    assert forall f :: f in batch ==> f in fills;
    forall i | from <= i < to ensures fills[i] in batch {
      assert fills[i] == batch[i - from];
    }
  }

  lemma DrainKeepsInStep(s: Session, count: nat)
    requires InStep(s)
    ensures InStep(Drain(s, count)) && Drain(s, count).quotes.size == s.quotes.size
  {
    var gone := set f | f in s.fills[s.told..Min(s.told + count, |s.fills|)] :: f.restingId;
    Drained(s, count, gone);
    TrackedForget(s.book, s.fills, Beliefs(s.quotes), s.quotes.size, s.quotes.nextId, gone);
  }

  lemma ActedInStep(s: Session, price: int)
    requires InStep(s)
    ensures InStep(Acted(s, price)) && Acted(s, price).quotes.size == s.quotes.size
  {
    var q := s.quotes;
    var (q', actions) := OnPrice(q, price);
    OnPriceOrderly(q, price);
    OnPriceExpects(q, price);
    TrackCommands(s.book, s.fills, Beliefs(q), q.size, q.nextId, q'.nextId, actions);
    var s' := Acted(s, price);
    forall i | 0 <= i < s.told ensures s'.fills[i].restingId !in Beliefs(q') {
      assert s'.fills[i] == s.fills[i] && s.fills[i] in s.fills;
      assert s.fills[i].restingId in TradedIds(s.fills);
      OnPriceBeliefs(q, price);
    }
  }

  /** A tick only drops beliefs or adds fresh ones. */
  lemma OnPriceBeliefs(q: Quotes, price: int)
    requires q.Valid()
    ensures forall id :: id in Beliefs(OnPrice(q, price).0) ==> id in Beliefs(q) || id >= q.nextId
  {
  }

  lemma TickKeepsInStep(s: Session, price: int, delivered: nat)
    requires InStep(s)
    ensures InStep(Tick(s, price, delivered)) && Tick(s, price, delivered).quotes.size == s.quotes.size
  {
    ActedInStep(s, price);
    DrainKeepsInStep(Acted(s, price), delivered);
  }

  lemma {:induction false} TicksKeepInStep(s: Session, prices: seq<int>, delays: seq<nat>)
    requires InStep(s) && |prices| == |delays|
    ensures InStep(Ticks(s, prices, delays))
    ensures Ticks(s, prices, delays).quotes.size == s.quotes.size
    decreases |prices|
  {
    if prices != [] {
      TickKeepsInStep(s, prices[0], delays[0]);
      TicksKeepInStep(Tick(s, prices[0], delays[0]), prices[1..], delays[1..]);
    }
  }

  lemma OpeningInStep(offset: int, size: nat)
    requires size > 0
    ensures InStep(Opening(offset, size))
  {
    assert TradedIds([]) == {};
  }

  /** What is tracked is tracked the offset away from the price. */
  predicate QuotedAround(q: Quotes, price: int, offset: int) {
    && q.offset == offset
    && (q.buy != None ==> q.buy.value.price == price - offset)
    && (q.sell != None ==> q.sell.value.price == price + offset)
  }

  lemma {:induction false} OnFillsKeepPrices(q: Quotes, fills: seq<Fill>, price: int, offset: int)
    requires QuotedAround(q, price, offset)
    ensures QuotedAround(OnFills(q, fills), price, offset)
    decreases |fills|
  {
    if fills != [] {
      OnFillsKeepPrices(OnFill(q, fills[0]), fills[1..], price, offset);
    }
  }

  lemma TickQuotes(s: Session, price: int, delivered: nat)
    requires s.told <= |s.fills|
    ensures QuotedAround(Tick(s, price, delivered).quotes, price, s.quotes.offset)
  {
    OnPriceMeans(s.quotes, price);
    var acted := Acted(s, price);
    OnFillsKeepPrices(acted.quotes, acted.fills[acted.told..Min(acted.told + delivered, |acted.fills|)], price, s.quotes.offset);
  }

  /** After the last tick what is tracked is the offset away from the last price. */
  lemma {:induction false} QuotesFollow(s: Session, prices: seq<int>, delays: seq<nat>)
    requires s.told <= |s.fills| && |prices| == |delays| > 0
    ensures QuotedAround(Ticks(s, prices, delays).quotes, prices[|prices| - 1], s.quotes.offset)
    decreases |prices|
  {
    TickQuotes(s, prices[0], delays[0]);
    if |prices| > 1 {
      QuotesFollow(Tick(s, prices[0], delays[0]), prices[1..], delays[1..]);
    }
  }

  /** The closed loop. Whatever the prices and however late the fills are delivered, at every tick
      boundary the only bid that can rest is the one the quoter tracks, at the tracked price and with
      its whole size, and likewise the only ask; so at most one order rests on each side, the bid the
      offset below the last price and the ask the offset above it. */
  lemma ClosedLoop(offset: int, size: nat, prices: seq<int>, delays: seq<nat>)
    requires size > 0 && |prices| == |delays|
    ensures var s := Ticks(Opening(offset, size), prices, delays);
      && (forall o :: o in s.book.bids ==> s.quotes.buy == Some(Quote(o.id, o.price)) && o.quantity == size)
      && (forall o :: o in s.book.asks ==> s.quotes.sell == Some(Quote(o.id, o.price)) && o.quantity == size)
      && |s.book.bids| <= 1 && |s.book.asks| <= 1
    ensures prices != [] ==>
      var s, last := Ticks(Opening(offset, size), prices, delays), prices[|prices| - 1];
      && (forall o :: o in s.book.bids ==> o.price == last - offset)
      && (forall o :: o in s.book.asks ==> o.price == last + offset)
  {
    if prices != [] {
      QuotesFollow(Opening(offset, size), prices, delays);
    }
    OpeningInStep(offset, size);
    TicksKeepInStep(Opening(offset, size), prices, delays);
    var s := Ticks(Opening(offset, size), prices, delays);
    AtMostOne(s.book.bids, Buy, s.quotes, s.book.next);
    AtMostOne(s.book.asks, Sell, s.quotes, s.book.next);
  }

  lemma AtMostOne(orders: seq<Order>, s: Side, q: Quotes, next: nat)
    requires ValidSide(s, orders, next) && q.Valid()
    requires Believed(orders, s, Beliefs(q), q.size)
    ensures forall o :: o in orders ==> q.On(s) == Some(Quote(o.id, o.price)) && o.quantity == q.size
    ensures |orders| <= 1
  {
    forall o | o in orders ensures q.On(s) == Some(Quote(o.id, o.price)) {
      assert Beliefs(q)[o.id] == (o.price, s);
    }
    assert |orders| > 1 ==> orders[0] in orders && orders[1] in orders;
    assert |orders| > 1 ==> orders[0].id != orders[1].id;
  }

  /** The converse is false: a quote that was filled on arrival goes on being believed. Once every
      fill has been delivered, a believed order rests if and only if it was never the incoming
      order of a fill. */
  lemma BeliefExactWhen(s: Session, id: nat)
    requires InStep(s) && s.told == |s.fills| && id in Beliefs(s.quotes)
    ensures id in s.book.RestingIds() <==> forall f :: f in s.fills ==> f.incomingId != id
  {
    if id in s.book.RestingIds() {
      forall f | f in s.fills ensures f.incomingId != id {
        assert f.incomingId in TradedIds(s.fills);
      }
    } else {
      assert id in TradedIds(s.fills);
      var f :| f in s.fills && (f.restingId == id || f.incomingId == id);
      var i :| 0 <= i < |s.fills| && s.fills[i] == f;
      assert f.restingId != id;
    }
  }

  lemma RunOne(b: Book, c: Command, more: seq<Command>)
    ensures Run(b, [c] + more) == (Run(Step(b, c).0, more).0, Step(b, c).1 + Run(Step(b, c).0, more).1)
  {
    assert ([c] + more)[1..] == more;
  }

  lemma SingleId(o: Order)
    ensures Ids([o]) == {o.id}
  {
    assert o in [o];
  }

  /** Quoting at 100 on an empty book: both orders rest. */
  lemma FirstTick() returns (s: Session)
    ensures s == Tick(Opening(1, 1), 100, 9)
    ensures s.quotes == Quotes(1, 1, 3, Some(Quote(1, 99)), Some(Quote(2, 101))) && s.fills == [] && s.told == 0
    ensures s.book == Book([LimitOrder(1, Buy, 99, 1)], [LimitOrder(2, Sell, 101, 1).(timestamp := 1)], 2)
  {
    s := Tick(Opening(1, 1), 100, 9);
    var b1, s2 := LimitOrder(1, Buy, 99, 1), LimitOrder(2, Sell, 101, 1);
    assert OnPrice(Opening(1, 1).quotes, 100).1 == [SubmitOrder(b1)] + [SubmitOrder(s2)];
    RunOne(EmptyBook, SubmitOrder(b1), [SubmitOrder(s2)]);
    RestsWhole(EmptyBook, b1);
    var book := Submit(EmptyBook, b1).0;
    assert book == Book([b1], [], 1);
    SingleId(b1);
    RestsWhole(book, s2);
    assert [SubmitOrder(s2)] == [SubmitOrder(s2)] + [];
    RunOne(book, SubmitOrder(s2), []);
  }

  /** Quoting at 103 next: the new buy at 102 is filled on arrival by the old sell at 101. */
  lemma SecondTick(s: Session) returns (f: Fill)
    requires s.quotes == Quotes(1, 1, 3, Some(Quote(1, 99)), Some(Quote(2, 101))) && s.fills == [] && s.told == 0
    requires s.book == Book([LimitOrder(1, Buy, 99, 1)], [LimitOrder(2, Sell, 101, 1).(timestamp := 1)], 2)
    ensures f.restingId == 2 && f.incomingId == 3 && Acted(s, 103).fills == [f]
    ensures Acted(s, 103).quotes == Quotes(1, 1, 5, Some(Quote(3, 102)), Some(Quote(4, 104)))
  {
    var b3, s4 := LimitOrder(3, Buy, 102, 1), LimitOrder(4, Sell, 104, 1);
    var pulls := [CancelOrder(1)] + [CancelOrder(2)];
    assert OnPrice(s.quotes, 103).1 == [SubmitOrder(b3)] + ([SubmitOrder(s4)] + pulls);
    SingleId(s.book.bids[0]);
    SingleId(s.book.asks[0]);
    RunOne(s.book, SubmitOrder(b3), [SubmitOrder(s4)] + pulls);
    f := Fill(2, 3, Sell, 101, 1, 3);
    var book := Book(s.book.bids, [], 4);
    var incoming := b3.(timestamp := 2);
    assert Match([], incoming.(quantity := 0), 4) == Outcome([], [], 0);
    assert s.book.asks[1..] == [] && Crosses(incoming, 101);
    assert Match(s.book.asks, incoming, 3) == Outcome([f] + [], [], 0);
    assert Trades(s.book, b3) == Outcome([f], [], 0);
    assert Submit(s.book, b3) == (book, [f]);
    RunOne(book, SubmitOrder(s4), pulls);
    RestsWhole(book, s4);
    var book' := Submit(book, s4).0;
    RunOne(book', CancelOrder(1), [CancelOrder(2)]);
    assert [CancelOrder(2)] == [CancelOrder(2)] + [];
    RunOne(Cancel(book', 1).0, CancelOrder(2), []);
  }

  lemma TicksStep(s: Session, price: int, delivered: nat, prices: seq<int>, delays: seq<nat>, s': Session)
    requires s.told <= |s.fills| && |prices| == |delays| && s' == Tick(s, price, delivered)
    ensures Ticks(s, [price] + prices, [delivered] + delays) == Ticks(s', prices, delays)
  {
    assert ([price] + prices)[1..] == prices && ([delivered] + delays)[1..] == delays;
  }

  lemma OneFill(q: Quotes, f: Fill)
    ensures OnFills(q, [f]) == OnFill(q, f)
  {
    assert [f][1..] == [];
  }

  /** Such a quote exists. With every fill delivered the quoter still believes in a buy that was
      filled on arrival: the fill names the old sell, not the buy. */
  lemma BeliefCanOutliveOrder()
    ensures var s := Ticks(Opening(1, 1), [100, 103], [9, 9]);
      s.told == |s.fills| && s.quotes.buy == Some(Quote(3, 102)) && 3 !in s.book.RestingIds()
  {
    var s1 := FirstTick();
    var f := SecondTick(s1);
    var s := Tick(s1, 103, 9);
    assert Ticks(Opening(1, 1), [100, 103], [9, 9]) == s by {
      assert [100, 103] == [100] + [103] && [9, 9] == [9] + [9] && [103] == [103] + [] && [9] == [9] + [];
      TicksStep(Opening(1, 1), 100, 9, [103], [9], s1);
      TicksStep(s1, 103, 9, [], [], s);
    }
    assert s.fills[0..1] == [f];
    OneFill(Acted(s1, 103).quotes, f);
    OpeningInStep(1, 1);
    TickKeepsInStep(Opening(1, 1), 100, 9);
    TickKeepsInStep(s1, 103, 9);
    assert f in s.fills && 3 in TradedIds(s.fills);
  }
}
