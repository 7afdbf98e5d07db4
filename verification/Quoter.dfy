/** The fixed-offset quoter (strategy/orderbook_client/strategy.py) and the loop that drives it
    against the book (strategy/orderbook_client/session_runner.py) with fills delivered late. */
module Quoter {
  import opened Orders
  import opened BookSpec
  import opened OrderBooks

  /** What the quoter remembers of the order it believes to be resting on one side. */
  datatype Quote = Quote(id: nat, price: int)

  datatype Quotes = Quotes(offset: int, size: nat, nextId: nat, buy: Option<Quote>, sell: Option<Quote>) {
    function On(s: Side): Option<Quote> {
      if s == Buy then buy else sell
    }

    function With(s: Side, q: Option<Quote>): Quotes {
      if s == Buy then this.(buy := q) else this.(sell := q)
    }

    function Target(s: Side, price: int): int {
      if s == Buy then price - offset else price + offset
    }

    /** The side is quoted at another price than it should be. */
    predicate Stale(s: Side, price: int) {
      On(s) != None ==> On(s).value.price != Target(s, price)
    }

    ghost predicate Valid() {
      && (buy != None ==> buy.value.id < nextId)
      && (sell != None ==> sell.value.id < nextId)
      && (buy != None && sell != None ==> buy.value.id != sell.value.id)
    }
  }

  function LimitOrder(id: nat, s: Side, price: int, size: nat): Order {
    Order(id, s, Limit, price, size, 0)
  }

  /** Requoting one side: the quoter afterwards, the order to place, and the cancel to send, if any. */
  function Requote(q: Quotes, s: Side, price: int): (r: (Quotes, seq<Command>, seq<Command>)) {
    if q.Stale(s, price) then
      (q.With(s, Some(Quote(q.nextId, q.Target(s, price)))).(nextId := q.nextId + 1),
       [SubmitOrder(LimitOrder(q.nextId, s, q.Target(s, price), q.size))],
       if q.On(s) != None then [CancelOrder(q.On(s).value.id)] else [])
    else (q, [], [])
  }

  /** Both sides are requoted, buy first; all new orders go out before any cancel. */
  function OnPrice(q: Quotes, price: int): (Quotes, seq<Command>) {
    var (q1, buys, buyCancels) := Requote(q, Buy, price);
    var (q2, sells, sellCancels) := Requote(q1, Sell, price);
    (q2, buys + sells + (buyCancels + sellCancels))
  }

  function OnFill(q: Quotes, f: Fill): Quotes {
    if q.buy != None && f.restingId == q.buy.value.id then q.(buy := None)
    else if q.sell != None && f.restingId == q.sell.value.id then q.(sell := None)
    else q
  }

  /** After a price both sides are quoted, the buy the offset below it and the sell the offset above. A
      side already there is left alone; any other gets a new order, and a cancel of the order it had. */
  lemma OnPriceMeans(q: Quotes, price: int)
    ensures var (q', actions) := OnPrice(q, price);
      var bid, ask := price - q.offset, price + q.offset;
      var keepBuy, keepSell := q.buy != None && q.buy.value.price == bid, q.sell != None && q.sell.value.price == ask;
      var sellId := if keepBuy then q.nextId else q.nextId + 1;
      && q'.buy == (if keepBuy then q.buy else Some(Quote(q.nextId, bid)))
      && q'.sell == (if keepSell then q.sell else Some(Quote(sellId, ask)))
      && q'.offset == q.offset && q'.size == q.size && q'.nextId == (if keepSell then sellId else sellId + 1)
      && actions == (if keepBuy then [] else [SubmitOrder(Order(q.nextId, Buy, Limit, bid, q.size, 0))])
                    + (if keepSell then [] else [SubmitOrder(Order(sellId, Sell, Limit, ask, q.size, 0))])
                    + ((if keepBuy || q.buy == None then [] else [CancelOrder(q.buy.value.id)])
                       + (if keepSell || q.sell == None then [] else [CancelOrder(q.sell.value.id)]))
  {
  }

  /** A fill takes the quote whose id it names as resting, and nothing else. */
  lemma OnFillMeans(q: Quotes, f: Fill)
    requires q.Valid()
    ensures var q' := OnFill(q, f);
      && q'.buy == (if q.buy != None && q.buy.value.id == f.restingId then None else q.buy)
      && q'.sell == (if q.sell != None && q.sell.value.id == f.restingId then None else q.sell)
      && q'.offset == q.offset && q'.size == q.size && q'.nextId == q.nextId
  {
  }

  function OnFills(q: Quotes, fills: seq<Fill>): Quotes
    decreases |fills|
  {
    if fills == [] then q else OnFills(OnFill(q, fills[0]), fills[1..])
  }

  class FixedOffsetQuoter {
    const offset: int
    const size: nat
    var ids: nat
    var restingBuy: Option<Quote>
    var restingSell: Option<Quote>

    ghost function State(): Quotes
      reads this
    {
      Quotes(offset, size, ids, restingBuy, restingSell)
    }

    constructor (offsetTicks: int, size: nat)
      ensures State() == Quotes(offsetTicks, size, 1, None, None)
    {
      offset, this.size, ids, restingBuy, restingSell := offsetTicks, size, 1, None, None;
    }

    method Price(priceTicks: int) returns (actions: seq<Command>)
      modifies this
      ensures (State(), actions) == OnPrice(old(State()), priceTicks)
      ensures restingBuy != None && restingBuy.value.price == priceTicks - offset
      ensures restingSell != None && restingSell.value.price == priceTicks + offset
    {
      var newOrders, cancels: seq<Command> := [], [];
      ghost var q := State();
      var sides := [Buy, Sell];
      for i := 0 to 2
        invariant i == 0 ==> State() == q && newOrders == [] && cancels == []
        invariant i == 1 ==> (State(), newOrders, cancels) == Requote(q, Buy, priceTicks)
        invariant i == 2 ==> (State(), newOrders + cancels) == OnPrice(q, priceTicks)
      {
        ghost var before, placed, pulled := State(), newOrders, cancels;
        var side := sides[i];
        var target := if side == Buy then priceTicks - offset else priceTicks + offset;
        var current := if side == Buy then restingBuy else restingSell;
        if !(current != None && current.value.price == target) {
          var id := ids;
          ids := ids + 1;
          newOrders := newOrders + [SubmitOrder(LimitOrder(id, side, target, size))];
          if current != None {
            cancels := cancels + [CancelOrder(current.value.id)];
          }
          if side == Buy {
            restingBuy := Some(Quote(id, target));
          } else {
            restingSell := Some(Quote(id, target));
          }
        }
        ghost var (q', place, pull) := Requote(before, side, priceTicks);
        assert State() == q';
        assert newOrders == placed + place && cancels == pulled + pull;
        assert [] + place == place && [] + pull == pull;
      }
      OnPriceMeans(q, priceTicks);
      return newOrders + cancels;
    }

    method FillEvent(f: Fill)
      modifies this
      ensures State() == OnFill(old(State()), f)
    {
      if restingBuy != None && f.restingId == restingBuy.value.id {
        restingBuy := None;
      } else if restingSell != None && f.restingId == restingSell.value.id {
        restingSell := None;
      }
    }
  }

  // ----- the session -----

  /** The quoter, the book it trades on alone, every fill there has been, and how many of them the
      quoter has been told. */
  datatype Session = Session(quotes: Quotes, book: Book, fills: seq<Fill>, told: nat)

  /** Some more of the outstanding fills reach the quoter, in order. */
  function Drain(s: Session, count: nat): (r: Session)
    requires s.told <= |s.fills|
    ensures r.told <= |r.fills|
  {
    var upTo := Min(s.told + count, |s.fills|);
    s.(quotes := OnFills(s.quotes, s.fills[s.told..upTo]), told := upTo)
  }

  /** The quoter's actions reach the book in the order emitted; the fills queue up for delivery. */
  function Acted(s: Session, price: int): (r: Session)
    ensures r.told == s.told && |r.fills| >= |s.fills|
  {
    var (quotes, actions) := OnPrice(s.quotes, price);
    var (book, fills) := Run(s.book, actions);
    Session(quotes, book, s.fills + fills, s.told)
  }

  /** One tick: the actions, then any number of the outstanding fills is delivered. */
  function Tick(s: Session, price: int, delivered: nat): (r: Session)
    requires s.told <= |s.fills|
    ensures r.told <= |r.fills|
  {
    Drain(Acted(s, price), delivered)
  }

  function Ticks(s: Session, prices: seq<int>, delays: seq<nat>): (r: Session)
    requires s.told <= |s.fills| && |prices| == |delays|
    ensures r.told <= |r.fills|
    decreases |prices|
  {
    if prices == [] then s else Ticks(Tick(s, prices[0], delays[0]), prices[1..], delays[1..])
  }

  function Opening(offset: int, size: nat): Session {
    Session(Quotes(offset, size, 1, None, None), EmptyBook, [], 0)
  }

  // ----- the driver loop -----

  lemma {:induction false} OnFillsAppend(q: Quotes, a: seq<Fill>, b: seq<Fill>)
    ensures OnFills(q, a + b) == OnFills(OnFills(q, a), b)
    decreases |a|
  {
    if a == [] {
      assert a + b == b;
    } else {
      assert (a + b)[0] == a[0] && (a + b)[1..] == a[1..] + b;
      OnFillsAppend(OnFill(q, a[0]), a[1..], b);
    }
  }

  /** Draining in two batches is draining once. */
  lemma DrainTwice(s: Session, a: nat, b: nat)
    requires s.told <= |s.fills|
    ensures Drain(Drain(s, a), b) == Drain(s, a + b)
  {
    var mid, end := Min(s.told + a, |s.fills|), Min(s.told + a + b, |s.fills|);
    assert s.fills[s.told..end] == s.fills[s.told..mid] + s.fills[mid..end];
    OnFillsAppend(s.quotes, s.fills[s.told..mid], s.fills[mid..end]);
  }

  lemma {:induction false} TicksAppend(s: Session, prices: seq<int>, delays: seq<nat>, price: int, delay: nat)
    requires s.told <= |s.fills| && |prices| == |delays|
    ensures Ticks(s, prices + [price], delays + [delay]) == Tick(Ticks(s, prices, delays), price, delay)
    decreases |prices|
  {
    var ps, ds := prices + [price], delays + [delay];
    if prices == [] {
      assert ps[1..] == [] && ds[1..] == [];
    } else {
      assert ps[0] == prices[0] && ps[1..] == prices[1..] + [price];
      assert ds[0] == delays[0] && ds[1..] == delays[1..] + [delay];
      TicksAppend(Tick(s, prices[0], delays[0]), prices[1..], delays[1..], price, delay);
    }
  }

  /** The client's end of the session: the quoter, the book its orders reach, and the fills that have
      not been polled yet. */
  class Loop {
    const strategy: FixedOffsetQuoter
    const book: OrderBook
    var events: seq<Fill>
    ghost var session: Session

    ghost predicate Valid()
      reads this, strategy, book
    {
      && book.Valid()
      && session.told <= |session.fills|
      && strategy.State() == session.quotes
      && book.View() == session.book
      && events == session.fills[session.told..]
    }

    constructor (strategy: FixedOffsetQuoter, book: OrderBook)
      requires book.Valid()
      ensures Valid() && this.strategy == strategy && this.book == book
      ensures session == Session(strategy.State(), book.View(), [], 0)
    {
      this.strategy, this.book, events := strategy, book, [];
      session := Session(strategy.State(), book.View(), [], 0);
    }

    /** Hands the next count polled events to the strategy, oldest first. */
    method DrainEvents(count: nat)
      requires Valid()
      modifies this, strategy
      ensures Valid() && session == Drain(old(session), count)
      ensures events == old(events[Min(count, |events|)..])
    {
      ghost var s := session;
      var n := Min(count, |events|);
      for i := 0 to n
        invariant events == s.fills[s.told..] && session == s
        invariant strategy.State() == OnFills(s.quotes, s.fills[s.told..s.told + i])
      {
        strategy.FillEvent(events[i]);
        assert s.fills[s.told..s.told + i + 1] == s.fills[s.told..s.told + i] + [events[i]];
        OnFillsAppend(s.quotes, s.fills[s.told..s.told + i], [events[i]]);
        assert [events[i]][1..] == [];
      }
      events := events[n..];
      session := Drain(s, count);
    }

    /** Sends one action to the book; what it fills queues up. */
    method Send(c: Command)
      requires book.Valid()
      modifies `events, book
      ensures book.Valid() && book.View() == Step(old(book.View()), c).0
      ensures events == old(events) + Step(old(book.View()), c).1
    {
      match c {
        case SubmitOrder(order) =>
          var fills := book.Submit(order);
          events := events + fills;
        case CancelOrder(id) =>
          var _ := book.Cancel(id);
      }
    }

    /** Sends actions in order. */
    method SendAll(actions: seq<Command>)
      requires book.Valid()
      modifies `events, book
      ensures book.Valid() && book.View() == Run(old(book.View()), actions).0
      ensures events == old(events) + Run(old(book.View()), actions).1
    {
      ghost var b, fills := book.View(), [];
      for i := 0 to |actions|
        invariant book.Valid() && (book.View(), fills) == Run(b, actions[..i])
        invariant events == old(events) + fills
      {
        ghost var now := book.View();
        RunSnoc(b, actions, i);
        Send(actions[i]);
        AppendAppend(old(events), fills, Step(now, actions[i]).1);
        fills := fills + Step(now, actions[i]).1;
      }
      TakeAll(actions);
    }

    /** The actions of one tick. */
    method Act(price: int)
      requires Valid()
      modifies this, strategy, book
      ensures Valid() && session == Acted(old(session), price)
    {
      ghost var s := session;
      var actions := strategy.Price(price);
      SendAll(actions);
      session := Acted(s, price);
      AppendDrop(s.fills, Run(s.book, actions).1, s.told);
    }

    /** One tick of the loop. */
    method RunTick(price: int, delay: nat)
      requires Valid()
      modifies this, strategy, book
      ensures Valid() && session == Tick(old(session), price, delay)
    {
      Act(price);
      DrainEvents(delay);
    }

    /** Polls until a poll comes back empty. */
    method DrainUntilQuiet(polls: seq<Poll>)
      requires Valid()
      modifies this, strategy
      ensures Valid() && session == Drain(old(session), Heard(polls))
    {
      var i: nat := 0;
      ghost var s, heard: nat := session, 0;
      DrainNothing(s);
      while i < |polls| && polls[i].Events?
        invariant i <= |polls| && Valid() && session == Drain(s, heard)
        invariant heard + Heard(polls[i..]) == Heard(polls)
      {
        var count := polls[i].fills;
        HeardStep(polls, i);
        DrainTwice(s, heard, count);
        DrainEvents(count);
        heard, i := heard + count, i + 1;
      }
    }

    /** Runs until the feed ends or maxTicks is reached, then drains until a poll comes back empty. At
        each poll some number of the outstanding fills is there, as delays and lastPolls say. */
    method RunStrategyLoop(feed: seq<int>, maxTicks: Option<nat>, delays: seq<nat>, lastPolls: seq<Poll>)
      returns (ticksDone: nat)
      requires Valid() && |delays| == |feed|
      modifies this, strategy, book
      ensures Valid()
      ensures ticksDone == if maxTicks == None then |feed| else Min(maxTicks.value, |feed|)
      ensures var s := Ticks(old(session), feed[..ticksDone], delays[..ticksDone]);
        && session == Drain(s, Heard(lastPolls))
        && (session.told == |session.fills| <==> s.told + Heard(lastPolls) >= |s.fills|)
    {
      ticksDone := RunTicks(feed, maxTicks, delays);
      DrainUntilQuiet(lastPolls);
    }

    /** The ticks of the loop. */
    method RunTicks(feed: seq<int>, maxTicks: Option<nat>, delays: seq<nat>) returns (ticksDone: nat)
      requires Valid() && |delays| == |feed|
      modifies this, strategy, book
      ensures Valid()
      ensures ticksDone == if maxTicks == None then |feed| else Min(maxTicks.value, |feed|)
      ensures session == Ticks(old(session), feed[..ticksDone], delays[..ticksDone])
    {
      ticksDone := 0;
      ghost var s, now := session, session;
      ReachedFirst(s, feed, delays);
      while (maxTicks == None || ticksDone < maxTicks.value) && ticksDone < |feed|
        invariant Valid() && ticksDone <= |feed|
        invariant maxTicks != None ==> ticksDone <= maxTicks.value
        invariant session == now && Reached(s, feed, delays, ticksDone, now)
      {
        ReachedNext(s, feed, delays, ticksDone, now);
        RunTick(feed[ticksDone], delays[ticksDone]);
        now := session;
        ticksDone := ticksDone + 1;
      }
    }
  }

  /** What a poll brings: nothing within its timeout, or events, so many fills among the acks. */
  datatype Poll = Empty | Events(fills: nat)

  /** The fills of the polls before the first empty one. */
  function Heard(polls: seq<Poll>): nat {
    if polls == [] || polls[0] == Empty then 0 else polls[0].fills + Heard(polls[1..])
  }

  lemma HeardStep(polls: seq<Poll>, i: nat)
    requires i < |polls| && polls[i].Events?
    ensures Heard(polls[i..]) == polls[i].fills + Heard(polls[i + 1..])
  {
    assert polls[i..][1..] == polls[i + 1..];
  }

  /** The session after so many ticks of the feed. */
  predicate Reached(s: Session, feed: seq<int>, delays: seq<nat>, ticks: nat, now: Session)
    requires s.told <= |s.fills| && ticks <= |feed| == |delays|
  {
    now == Ticks(s, feed[..ticks], delays[..ticks])
  }

  lemma ReachedFirst(s: Session, feed: seq<int>, delays: seq<nat>)
    requires s.told <= |s.fills| && |feed| == |delays|
    ensures Reached(s, feed, delays, 0, s)
  {
  }

  lemma ReachedNext(s: Session, feed: seq<int>, delays: seq<nat>, i: nat, now: Session)
    requires s.told <= |s.fills| && i < |feed| == |delays| && Reached(s, feed, delays, i, now)
    ensures now.told <= |now.fills| && Reached(s, feed, delays, i + 1, Tick(now, feed[i], delays[i]))
  {
    TicksSnoc(s, feed, delays, i);
  }

  lemma DrainNothing(s: Session)
    requires s.told <= |s.fills|
    ensures Drain(s, 0) == s
  {
    assert s.fills[s.told..s.told] == [];
  }

  lemma TicksSnoc(s: Session, prices: seq<int>, delays: seq<nat>, i: nat)
    requires s.told <= |s.fills| && |prices| == |delays| && i < |prices|
    ensures Ticks(s, prices[..i + 1], delays[..i + 1]) == Tick(Ticks(s, prices[..i], delays[..i]), prices[i], delays[i])
  {
    TakeSnoc(prices, i);
    TakeSnoc(delays, i);
    TicksAppend(s, prices[..i], delays[..i], prices[i], delays[i]);
  }

  lemma RunSnoc(b: Book, commands: seq<Command>, i: nat)
    requires i < |commands|
    ensures var (b1, fills) := Run(b, commands[..i]);
      Run(b, commands[..i + 1]) == (Step(b1, commands[i]).0, fills + Step(b1, commands[i]).1)
  {
    var c := commands[i];
    TakeSnoc(commands, i);
    RunAppend(b, commands[..i], [c]);
    var b1 := Run(b, commands[..i]).0;
    assert [c][1..] == [];
    assert Step(b1, c).1 + [] == Step(b1, c).1;
  }

  lemma AppendAppend<T>(a: seq<T>, b: seq<T>, c: seq<T>)
    ensures (a + b) + c == a + (b + c)
  {
  }

  lemma AppendDrop<T>(a: seq<T>, b: seq<T>, i: nat)
    requires i <= |a|
    ensures (a + b)[i..] == a[i..] + b
  {
  }
}
