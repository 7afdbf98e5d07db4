/** Position and P&L accounting, twice: the Rust tracker (risk/src/position.rs) and the Python replay
    (strategy/orderbook_client/backtest_report.py). Floating-point numbers are reals. */
module Position {
  import opened Orders

  /** A fill as the monitored account sees it: the incoming side, the quantity and the price. */
  datatype Trade = Trade(side: Side, quantity: nat, price: int) {
    function Signed(): int {
      var q: int := quantity;
      if side == Buy then q else -q
    }
  }

  datatype Account = Account(net: int, realized: int, last: int, avg: real)

  const Flat := Account(0, 0, 0, 0.0)

  function Sign(x: int): int {
    if x > 0 then 1 else if x < 0 then -1 else 0
  }

  function Abs(x: int): nat {
    if x < 0 then -x else x
  }

  function AbsReal(x: real): real {
    if x < 0.0 then -x else x
  }

  /** as i64 of a float: the fraction is cut off, towards zero. */
  function Truncate(x: real): (n: int)
    ensures AbsReal(x - n as real) < 1.0
    ensures if x >= 0.0 then 0.0 <= n as real <= x else x <= n as real <= 0.0
  {
    if x >= 0.0 then x.Floor else -(-x).Floor
  }

  /** Python's round: to the nearest integer, ties to even. */
  function Round(x: real): (n: int)
    ensures AbsReal(x - n as real) <= 0.5
    ensures AbsReal(x - n as real) == 0.5 ==> n % 2 == 0
  {
    var floor := x.Floor;
    var fraction := x - floor as real;
    if fraction < 0.5 then floor
    else if fraction > 0.5 then floor + 1
    else if floor % 2 == 0 then floor else floor + 1
  }

  /** The trade adds to the position or opens one. */
  predicate SameDirection(net: int, signed: int) {
    net == 0 || Sign(net) == Sign(signed)
  }

  /** How much of the position the trade closes. */
  function Closing(net: int, signed: int): nat {
    if SameDirection(net, signed) then 0 else Min(Abs(signed), Abs(net))
  }

  /** The average entry price when quantity is added to a position. */
  function Blend(avg: real, held: nat, price: int, added: nat): real
    requires held != 0 || added != 0
  {
    (avg * held as real + price as real * added as real) / (held as real + added as real)
  }

  /** The average entry price after a trade, the same in both programs. */
  function Average(net: int, avg: real, t: Trade): real
    requires net != 0 || t.quantity != 0
  {
    if SameDirection(net, t.Signed()) then
      Blend(avg, Abs(net), t.price, t.quantity)
    else if net + t.Signed() != 0 && Sign(net + t.Signed()) != Sign(net) then t.price as real
    else avg
  }

  /** The closed quantity with the sign of the position it closes. */
  function SignedClosing(net: int, signed: int): (c: int)
    ensures c == Sign(net) * Closing(net, signed)
  {
    if net > 0 then Closing(net, signed) else if net < 0 then 0 - Closing(net, signed) else 0
  }

  /** Profit on a signed closed quantity, exactly and with the average cut to whole ticks. */
  function Profit(closed: int, price: int, avg: real): real {
    closed as real * (price as real - avg)
  }

  function CutProfit(closed: int, price: int, avg: real): int {
    closed * (price - Truncate(avg))
  }

  /** Realized P&L of a trade as the tracker books it: the average is truncated first. */
  function TrackerDelta(a: Account, t: Trade): int {
    CutProfit(SignedClosing(a.net, t.Signed()), t.price, a.avg)
  }

  /** As the replay books it: the product is rounded. */
  function ReplayDelta(a: Account, t: Trade): int {
    if SameDirection(a.net, t.Signed()) then 0
    else Round(Profit(SignedClosing(a.net, t.Signed()), t.price, a.avg))
  }

  function Tracked(a: Account, t: Trade): Account
    requires a.net != 0 || t.quantity != 0
  {
    Account(a.net + t.Signed(), a.realized + TrackerDelta(a, t), t.price, Average(a.net, a.avg, t))
  }

  function Replayed(a: Account, t: Trade): Account
    requires a.net != 0 || t.quantity != 0
  {
    Account(a.net + t.Signed(), a.realized + ReplayDelta(a, t), a.last, Average(a.net, a.avg, t))
  }

  /** The open position at the last price against its average entry, truncated. */
  function Unrealized(a: Account): int {
    a.net * (a.last - Truncate(a.avg))
  }

  /** risk/src/position.rs. A zero fill on a flat tracker divides zero by zero. */
  class PositionTracker {
    var netPosition: int
    var realizedPnlTicks: int
    var lastTradePriceTicks: int
    var avgEntryPriceTicks: real

    function State(): Account
      reads this
    {
      Account(netPosition, realizedPnlTicks, lastTradePriceTicks, avgEntryPriceTicks)
    }

    constructor ()
      ensures State() == Flat
    {
      netPosition, realizedPnlTicks, lastTradePriceTicks, avgEntryPriceTicks := 0, 0, 0, 0.0;
    }

    method OnFill(incomingSide: Side, quantity: nat, priceTicks: int)
      requires netPosition != 0 || quantity != 0
      modifies this
      ensures State() == Tracked(old(State()), Trade(incomingSide, quantity, priceTicks))
    {
      var qty: int := quantity;
      var signedQty := if incomingSide == Buy then qty else -qty;
      ghost var a, t := State(), Trade(incomingSide, quantity, priceTicks);
      assert t.Signed() == signedQty && Abs(signedQty) == quantity;
      lastTradePriceTicks := priceTicks;
      if netPosition == 0 || Sign(netPosition) == Sign(signedQty) {
        var oldAbs, addAbs := Abs(netPosition), Abs(signedQty);
        avgEntryPriceTicks := Blend(avgEntryPriceTicks, oldAbs, priceTicks, addAbs);
        netPosition := netPosition + signedQty;
      } else {
        var direction := Sign(netPosition);
        var closingQty := Min(Abs(signedQty), Abs(netPosition));
        assert direction * closingQty == SignedClosing(a.net, signedQty);
        realizedPnlTicks := realizedPnlTicks + CutProfit(direction * closingQty, priceTicks, avgEntryPriceTicks);
        netPosition := netPosition + signedQty;
        if netPosition != 0 && Sign(netPosition) != direction {
          avgEntryPriceTicks := priceTicks as real;
        }
      }
    }

    function UnrealizedPnlTicks(): (r: int)
      reads this
      ensures r == Unrealized(State())
    {
      netPosition * (lastTradePriceTicks - Truncate(avgEntryPriceTicks))
    }
  }

  /** strategy/orderbook_client/backtest_report.py */
  class PositionReplay {
    var netPosition: int
    var realizedPnlTicks: int
    var avgEntryPriceTicks: real

    function State(): Account
      reads this
    {
      Account(netPosition, realizedPnlTicks, 0, avgEntryPriceTicks)
    }

    constructor ()
      ensures State() == Flat
    {
      netPosition, realizedPnlTicks, avgEntryPriceTicks := 0, 0, 0.0;
    }

    method OnFill(incomingSide: Side, quantity: nat, priceTicks: int) returns (delta: int)
      requires netPosition != 0 || quantity != 0
      modifies this
      ensures State() == Replayed(old(State()), Trade(incomingSide, quantity, priceTicks))
      ensures delta == ReplayDelta(old(State()), Trade(incomingSide, quantity, priceTicks))
    {
      var qty: int := quantity;
      var signedQty := if incomingSide == Buy then qty else -qty;
      ghost var a, t := State(), Trade(incomingSide, quantity, priceTicks);
      assert t.Signed() == signedQty && Abs(signedQty) == quantity;
      if netPosition == 0 || Sign(netPosition) == Sign(signedQty) {
        var oldAbs, addAbs := Abs(netPosition), Abs(signedQty);
        avgEntryPriceTicks := Blend(avgEntryPriceTicks, oldAbs, priceTicks, addAbs);
        netPosition := netPosition + signedQty;
        return 0;
      }
      var direction := Sign(netPosition);
      var closingQty := Min(Abs(signedQty), Abs(netPosition));
      assert direction * closingQty == SignedClosing(a.net, signedQty);
      delta := Round(Profit(direction * closingQty, priceTicks, avgEntryPriceTicks));
      realizedPnlTicks := realizedPnlTicks + delta;
      netPosition := netPosition + signedQty;
      if netPosition != 0 && Sign(netPosition) != direction {
        avgEntryPriceTicks := priceTicks as real;
      }
    }
  }

  // ----- runs -----

  predicate Positive(trades: seq<Trade>) {
    forall t :: t in trades ==> t.quantity > 0
  }

  /** The trades of a run: fills have positive quantities. */
  type TradeRun = trades: seq<Trade> | Positive(trades)

  /** All trades but the last, and the last. */
  function TrackerRun(trades: TradeRun): Account {
    if trades == [] then Flat else Tracked(TrackerRun(trades[..|trades| - 1]), trades[|trades| - 1])
  }

  function ReplayRun(trades: TradeRun): Account {
    if trades == [] then Flat else Replayed(ReplayRun(trades[..|trades| - 1]), trades[|trades| - 1])
  }

  function SignedSum(trades: seq<Trade>): int {
    if trades == [] then 0 else SignedSum(trades[..|trades| - 1]) + trades[|trades| - 1].Signed()
  }

  /** What was paid in all: signed quantity times price. */
  function Cost(trades: seq<Trade>): int {
    if trades == [] then 0
    else Cost(trades[..|trades| - 1]) + trades[|trades| - 1].Signed() * trades[|trades| - 1].price
  }

  /** Contracts closed over the run, and how many trades closed any. */
  function Closed(trades: seq<Trade>): nat {
    if trades == [] then 0
    else Closed(trades[..|trades| - 1]) + Closing(SignedSum(trades[..|trades| - 1]), trades[|trades| - 1].Signed())
  }

  function ClosingTrades(trades: seq<Trade>): nat {
    if trades == [] then 0
    else
      var closes := !SameDirection(SignedSum(trades[..|trades| - 1]), trades[|trades| - 1].Signed());
      ClosingTrades(trades[..|trades| - 1]) + if closes then 1 else 0
  }

  /** Mark of the position at its average entry price: net times average. */
  function Held(a: Account): real {
    a.net as real * a.avg
  }

  // ----- one trade, case by case -----

  /** What is held afterwards, at what average, and how many contracts are closed, with the sign of the
      position: adding blends the average, closing keeps it, and going past flat starts anew at the
      trade's price. */
  lemma TradeMoves(net: int, avg: real, t: Trade)
    requires t.quantity > 0
    ensures var q: int, price, closed, avg' := t.quantity, t.price as real, SignedClosing(net, t.Signed()), Average(net, avg, t);
      && t.Signed() == (if t.side == Buy then q else 0 - q)
      && (t.side == Buy && net >= 0 ==> closed == 0 && avg' * (net + q) as real == avg * net as real + price * q as real)
      && (t.side == Sell && net <= 0 ==> closed == 0 && avg' * (q - net) as real == avg * (0 - net) as real + price * q as real)
      && (t.side == Sell && 0 < net && q <= net ==> closed == q && avg' == avg)
      && (t.side == Sell && 0 < net < q ==> closed == net && avg' == price)
      && (t.side == Buy && net < 0 && q <= -net ==> closed == 0 - q && avg' == avg)
      && (t.side == Buy && -q < net < 0 ==> closed == net && avg' == price)
  {
    if SameDirection(net, t.Signed()) {
      var n, q := Abs(net) as real, t.quantity as real;
      QuotientTimes(avg * n + t.price as real * q, n + q);
    }
  }

  /** What either program books for it: closed contracts times the distance from the average, cut to
      whole ticks before the product by the one and rounded after it by the other. */
  lemma TrackerBooks(a: Account, t: Trade)
    requires t.quantity > 0
    ensures Tracked(a, t)
         == Account(a.net + t.Signed(), a.realized + SignedClosing(a.net, t.Signed()) * (t.price - Truncate(a.avg)),
                    t.price, Average(a.net, a.avg, t))
  {
  }

  lemma ReplayBooks(a: Account, t: Trade)
    requires t.quantity > 0
    ensures var profit := Profit(SignedClosing(a.net, t.Signed()), t.price, a.avg);
      && profit == SignedClosing(a.net, t.Signed()) as real * (t.price as real - a.avg)
      && Replayed(a, t) == Account(a.net + t.Signed(), a.realized + Round(profit), a.last, Average(a.net, a.avg, t))
  {
    var profit := Profit(SignedClosing(a.net, t.Signed()), t.price, a.avg);
    if SameDirection(a.net, t.Signed()) {
      NoProfit(t.price, a.avg);
      assert profit == 0.0 && Round(0.0) == 0;
    }
    assert ReplayDelta(a, t) == Round(profit);
  }

  // ----- the exact ledger of one trade -----

  /** Adding to a position: held value grows by what is paid. */
  lemma OpenLedger(net: int, avg: real, held: nat, added: nat, s: int, price: int, sign: int)
    requires sign == 1 || sign == -1
    requires net == sign * held && s == sign * added && added > 0
    ensures (net + s) as real * Blend(avg, held, price, added) == net as real * avg + s as real * price as real
  {
    var n, q, p := held as real, added as real, price as real;
    var blend := Blend(avg, held, price, added);
    QuotientTimes(avg * n + p * q, n + q);
    assert (n + q) * blend == avg * n + p * q;
    if sign == 1 {
      assert (net + s) as real == n + q && net as real == n && s as real == q;
    } else {
      assert (net + s) as real == -(n + q) && net as real == -n && s as real == -q;
      assert (-(n + q)) * blend == -((n + q) * blend);
    }
  }

  lemma QuotientTimes(x: real, y: real)
    requires y != 0.0
    ensures y * (x / y) == x
  {
  }

  /** Closing a position, partly or past flat: held value changes by what is paid and by the profit on
      the closed part. */
  lemma CloseLedger(net: int, avg: real, after: int, avgAfter: real, s: int, price: int, closed: int)
    requires after == net + s
    requires (closed == net && avgAfter == price as real) || (closed == -s && avgAfter == avg)
    ensures after as real * avgAfter
         == net as real * avg + s as real * price as real + closed as real * (price as real - avg)
  {
    var n, d, p, c := net as real, s as real, price as real, closed as real;
    assert after as real == n + d;
    if closed == net && avgAfter == p {
      assert c == n;
      assert (n + d) * p == n * avg + d * p + n * (p - avg);
    } else {
      assert c == -d;
      assert (n + d) * avg == n * avg + d * p + (-d) * (p - avg);
    }
  }

  /** Cutting a number below a whole one off the price costs less than one per contract. */
  lemma CutLedger(closed: int, k: nat, price: int, avg: real, cut: int) returns (error: real)
    requires (closed == k || closed == 0 - k) && AbsReal(avg - cut as real) < 1.0
    ensures (closed * (price - cut)) as real == closed as real * (price as real - avg) + error
    ensures AbsReal(error) <= k as real
    ensures k == 0 || avg == cut as real ==> error == 0.0
  {
    var c, x := closed as real, avg - cut as real;
    error := Scaled(c, x, k as real);
    assert (price - cut) as real == price as real - cut as real;
    assert (closed * (price - cut)) as real == c * (price as real - cut as real);
    assert c * (price as real - cut as real) == c * (price as real - avg) + c * x;
  }

  lemma Scaled(c: real, x: real, k: real) returns (error: real)
    requires (c == k || c == -k) && k >= 0.0 && -1.0 < x < 1.0
    ensures error == c * x && AbsReal(error) <= k
    ensures k == 0.0 || x == 0.0 ==> error == 0.0
  {
    Bounded(k, x);
    error := if c == k then k * x else -(k * x);
    if c != k {
      assert (-k) * x == -(k * x);
    }
  }

  lemma Bounded(k: real, x: real)
    requires k >= 0.0 && -1.0 < x < 1.0
    ensures -k <= k * x <= k
    ensures k == 0.0 || x == 0.0 ==> k * x == 0.0
  {
  }

  /** How a trade changes net position and average, in either program. */
  lemma NewAverage(net: int, avg: real, t: Trade)
    requires t.quantity > 0
    ensures var s, after := t.Signed(), net + t.Signed();
      var closed := SignedClosing(net, s);
      && (SameDirection(net, s) ==>
            closed == 0 && Average(net, avg, t) == Blend(avg, Abs(net), t.price, t.quantity)
            && exists sign :: (sign == 1 || sign == -1) && net == sign * Abs(net) && s == sign * t.quantity)
      && (!SameDirection(net, s) ==>
            || (closed == net && Average(net, avg, t) == t.price as real)
            || (closed == -s && Average(net, avg, t) == avg))
      && (closed == Closing(net, s) || closed == 0 - Closing(net, s))
  {
    var s := t.Signed();
    if SameDirection(net, s) {
      var sign := if t.side == Buy then 1 else -1;
      assert net == sign * Abs(net) && s == sign * t.quantity;
    }
  }

  lemma OpenedHeld(net: int, avg: real, t: Trade)
    requires t.quantity > 0 && SameDirection(net, t.Signed())
    ensures (net + t.Signed()) as real * Average(net, avg, t) == net as real * avg + t.Signed() as real * t.price as real
  {
    var sign := if t.side == Buy then 1 else -1;
    NewAverage(net, avg, t);
    OpenLedger(net, avg, Abs(net), t.quantity, t.Signed(), t.price, sign);
  }

  lemma AverageHeld(net: int, avg: real, t: Trade)
    requires t.quantity > 0
    ensures (net + t.Signed()) as real * Average(net, avg, t)
         == net as real * avg + t.Signed() as real * t.price as real + Profit(SignedClosing(net, t.Signed()), t.price, avg)
  {
    var s := t.Signed();
    NewAverage(net, avg, t);
    if SameDirection(net, s) {
      OpenedHeld(net, avg, t);
      NoProfit(t.price, avg);
    } else {
      CloseLedger(net, avg, net + s, Average(net, avg, t), s, t.price, SignedClosing(net, s));
    }
  }

  /** What a trade is paid for. */
  function Paid(t: Trade): real {
    t.Signed() as real * t.price as real
  }

  /** The profit of a trade at the exact average. */
  function Ideal(a: Account, t: Trade): real {
    Profit(SignedClosing(a.net, t.Signed()), t.price, a.avg)
  }

  /** One trade: the held value afterwards is what it was, plus what was paid, plus the profit. */
  lemma HeldAfter(a: Account, b: Account, t: Trade)
    requires t.quantity > 0 && b.net == a.net + t.Signed() && b.avg == Average(a.net, a.avg, t)
    ensures Held(b) == Held(a) + Paid(t) + Ideal(a, t)
  {
    AverageHeld(a.net, a.avg, t);
    assert b.net as real * b.avg == (a.net + t.Signed()) as real * Average(a.net, a.avg, t);
  }

  // ----- the ledger over runs -----

  lemma PositiveInit(trades: seq<Trade>)
    requires Positive(trades) && trades != []
    ensures Positive(trades[..|trades| - 1]) && trades[|trades| - 1].quantity > 0
  {
  }

  /** Every closing trade so far met an average entry price that is a whole number of ticks. */
  ghost predicate IntegralCloses(trades: TradeRun) {
    trades == [] ||
    (PositiveInit(trades);
     var a, t := TrackerRun(trades[..|trades| - 1]), trades[|trades| - 1];
     && IntegralCloses(trades[..|trades| - 1])
     && (Closing(a.net, t.Signed()) == 0 || a.avg == Truncate(a.avg) as real))
  }

  /** How far the realized P&L is from the exact ledger, held value minus cost. */
  function Gap(a: Account, trades: seq<Trade>): real {
    a.realized as real - (Held(a) - Cost(trades) as real)
  }

  /** Booking a trade with a bounded error moves the gap by no more than that. */
  lemma GapStep(r0: real, r1: real, h0: real, h1: real, c0: real, c1: real, paid: real, profit: real, error: real,
          k0: real, k: real)
    requires AbsReal(r0 - (h0 - c0)) <= k0 && AbsReal(error) <= k
    requires r1 - r0 == profit + error && h1 == h0 + paid + profit && c1 == c0 + paid
    ensures AbsReal(r1 - (h1 - c1)) <= k0 + k
    ensures r0 == h0 - c0 && error == 0.0 ==> r1 == h1 - c1
  {
  }

  lemma CostStep(trades: seq<Trade>)
    requires trades != []
    ensures var t := trades[|trades| - 1];
      Cost(trades) as real == Cost(trades[..|trades| - 1]) as real + Paid(t)
  {
    var t := trades[|trades| - 1];
    IntToReal(t.Signed(), t.price);
  }

  lemma IntToReal(x: int, y: int)
    ensures (x * y) as real == x as real * y as real
  {
  }

  lemma TrackerError(a: Account, t: Trade) returns (error: real)
    requires t.quantity > 0
    ensures TrackerDelta(a, t) as real == Ideal(a, t) + error
    ensures AbsReal(error) <= Closing(a.net, t.Signed()) as real
    ensures Closing(a.net, t.Signed()) == 0 || a.avg == Truncate(a.avg) as real ==> error == 0.0
  {
    NewAverage(a.net, a.avg, t);
    error := CutLedger(SignedClosing(a.net, t.Signed()), Closing(a.net, t.Signed()), t.price, a.avg, Truncate(a.avg));
  }

  lemma NoProfit(price: int, avg: real)
    ensures Profit(0, price, avg) == 0.0
  {
    var x := price as real - avg;
    assert 0.0 * x == 0.0;
  }

  lemma ReplayError(a: Account, t: Trade) returns (error: real)
    requires t.quantity > 0
    ensures ReplayDelta(a, t) as real == Ideal(a, t) + error
    ensures AbsReal(error) <= if SameDirection(a.net, t.Signed()) then 0.0 else 0.5
  {
    var profit := Profit(SignedClosing(a.net, t.Signed()), t.price, a.avg);
    NoProfit(t.price, a.avg);
    error := ReplayDelta(a, t) as real - profit;
  }

  /** Over any run the net position is the sum of the signed quantities, and the realized P&L differs
      from the exact ledger by at most the number of contracts closed. */
  lemma {:induction false} TrackerLedger(trades: TradeRun)
    ensures TrackerRun(trades).net == SignedSum(trades)
    ensures AbsReal(Gap(TrackerRun(trades), trades)) <= Closed(trades) as real
    ensures IntegralCloses(trades) ==> Gap(TrackerRun(trades), trades) == 0.0
  {
    if trades != [] {
      var init, t := trades[..|trades| - 1], trades[|trades| - 1];
      PositiveInit(trades);
      TrackerLedger(init);
      var a, b := TrackerRun(init), TrackerRun(trades);
      var error := TrackerError(a, t);
      HeldAfter(a, b, t);
      CostStep(trades);
      GapStep(a.realized as real, b.realized as real, Held(a), Held(b), Cost(init) as real, Cost(trades) as real,
              Paid(t), Ideal(a, t), error,
              Closed(init) as real, Closing(a.net, t.Signed()) as real);
    }
  }

  /** A position cut down to a whole average entry is marked wrong by less than a tick a contract. */
  lemma UnrealizedError(a: Account) returns (error: real)
    ensures Unrealized(a) as real == a.net as real * (a.last as real - a.avg) + error
    ensures AbsReal(error) <= Abs(a.net) as real
    ensures a.avg == Truncate(a.avg) as real ==> error == 0.0
  {
    error := CutLedger(a.net, Abs(a.net), a.last, a.avg, Truncate(a.avg));
  }

  /** Realized plus unrealized P&L, against what the position would fetch at the last price less what
      everything cost. */
  function OffMark(a: Account, trades: seq<Trade>): int {
    a.realized + Unrealized(a) - (a.net * a.last - Cost(trades))
  }

  /** Marked to market: the two differ by at most a tick per contract closed and per contract held, and
      not at all if all averages that were cut were whole. */
  lemma MarkedToMarket(trades: TradeRun)
    ensures var a := TrackerRun(trades);
      && a.net == SignedSum(trades) && (trades != [] ==> a.last == trades[|trades| - 1].price)
      && Abs(OffMark(a, trades)) <= Closed(trades) + Abs(a.net)
      && (IntegralCloses(trades) && a.avg == Truncate(a.avg) as real ==> OffMark(a, trades) == 0)
  {
    TrackerLedger(trades);
    MarkedWithin(TrackerRun(trades), trades, Closed(trades));
  }

  lemma MarkedWithin(a: Account, trades: seq<Trade>, k: nat)
    requires AbsReal(Gap(a, trades)) <= k as real
    ensures Abs(OffMark(a, trades)) <= k + Abs(a.net)
    ensures Gap(a, trades) == 0.0 && a.avg == Truncate(a.avg) as real ==> OffMark(a, trades) == 0
  {
    var error := UnrealizedError(a);
    Marked(a, trades, error);
    Within(OffMark(a, trades), Gap(a, trades), error, k, Abs(a.net));
  }

  lemma Within(off: int, gap: real, error: real, j: nat, k: nat)
    requires off as real == gap + error && AbsReal(gap) <= j as real && AbsReal(error) <= k as real
    ensures Abs(off) <= j + k
    ensures gap == 0.0 && error == 0.0 ==> off == 0
  {
  }

  lemma Marked(a: Account, trades: seq<Trade>, error: real)
    requires Unrealized(a) as real == a.net as real * (a.last as real - a.avg) + error
    ensures OffMark(a, trades) as real == Gap(a, trades) + error
  {
    IntToReal(a.net, a.last);
    assert a.net as real * (a.last as real - a.avg) == a.net as real * a.last as real - Held(a);
  }

  /** The replay's realized P&L differs from the same ledger by at most half a tick per closing trade. */
  lemma {:induction false} ReplayLedger(trades: TradeRun)
    ensures ReplayRun(trades).net == SignedSum(trades)
    ensures AbsReal(Gap(ReplayRun(trades), trades)) <= ClosingTrades(trades) as real * 0.5
  {
    if trades != [] {
      var init, t := trades[..|trades| - 1], trades[|trades| - 1];
      PositiveInit(trades);
      ReplayLedger(init);
      var a, b := ReplayRun(init), ReplayRun(trades);
      var error := ReplayError(a, t);
      HeldAfter(a, b, t);
      CostStep(trades);
      GapStep(a.realized as real, b.realized as real, Held(a), Held(b), Cost(init) as real, Cost(trades) as real,
              Paid(t), Ideal(a, t), error,
              ClosingTrades(init) as real * 0.5, if SameDirection(a.net, t.Signed()) then 0.0 else 0.5);
    }
  }

  lemma {:induction false} SameAverages(trades: TradeRun)
    ensures TrackerRun(trades).net == ReplayRun(trades).net && TrackerRun(trades).avg == ReplayRun(trades).avg
  {
    if trades != [] {
      PositiveInit(trades);
      SameAverages(trades[..|trades| - 1]);
    }
  }

  // ----- when the two book the same -----

  /** What truncating the average loses on the contracts a trade closes. */
  function Loss(a: Account, t: Trade): real {
    SignedClosing(a.net, t.Signed()) as real * (a.avg - Truncate(a.avg) as real)
  }

  /** The condition on a trade: the loss rounds away, a tie to the even side. */
  predicate RoundsAlike(a: Account, t: Trade) {
    || AbsReal(Loss(a, t)) < 0.5
    || (AbsReal(Loss(a, t)) == 0.5 && CutProfit(SignedClosing(a.net, t.Signed()), t.price, a.avg) % 2 == 0)
  }

  /** Rounding takes a whole number less x back to that number. */
  lemma RoundsBack(n: int, x: real)
    ensures Round(n as real - x) == n <==> AbsReal(x) < 0.5 || (AbsReal(x) == 0.5 && n % 2 == 0)
  {
    var y := n as real - x;
    assert y.Floor as real <= y < y.Floor as real + 1.0;
    if AbsReal(x) <= 0.5 {
      assert y.Floor == if x <= 0.0 then n else n - 1;
    }
  }

  lemma ProfitIsCutLessLoss(closed: int, price: int, avg: real, cut: int)
    ensures closed as real * (price as real - avg) == (closed * (price - cut)) as real - closed as real * (avg - cut as real)
  {
    var c, p, k := closed as real, price as real, cut as real;
    IntToReal(closed, price - cut);
    assert c * (p - avg) == c * (p - k) - c * (avg - k);
  }

  lemma CutAgrees(closed: int, price: int, avg: real, profit: real, booked: int, loss: real)
    requires profit == Profit(closed, price, avg) && booked == CutProfit(closed, price, avg)
    requires loss == closed as real * (avg - Truncate(avg) as real)
    ensures Round(profit) == booked <==> AbsReal(loss) < 0.5 || (AbsReal(loss) == 0.5 && booked % 2 == 0)
  {
    ProfitIsCutLessLoss(closed, price, avg, Truncate(avg));
    RoundsBack(booked, loss);
  }

  lemma BookedIs(a: Account, t: Trade) returns (profit: real, booked: int, loss: real)
    requires !SameDirection(a.net, t.Signed())
    ensures TrackerDelta(a, t) == booked && ReplayDelta(a, t) == Round(profit)
    ensures RoundsAlike(a, t) <==> AbsReal(loss) < 0.5 || (AbsReal(loss) == 0.5 && booked % 2 == 0)
    ensures Round(profit) == booked <==> AbsReal(loss) < 0.5 || (AbsReal(loss) == 0.5 && booked % 2 == 0)
  {
    var closed := SignedClosing(a.net, t.Signed());
    profit, booked, loss := Profit(closed, t.price, a.avg), CutProfit(closed, t.price, a.avg), Loss(a, t);
    CutAgrees(closed, t.price, a.avg, profit, booked, loss);
  }

  /** The two programs book the same on a trade exactly when it meets the condition. */
  lemma DeltasAgree(a: Account, t: Trade)
    ensures TrackerDelta(a, t) == ReplayDelta(a, t) <==> RoundsAlike(a, t)
  {
    if SameDirection(a.net, t.Signed()) {
      NothingBooked(a, t);
    } else {
      var profit, booked, loss := BookedIs(a, t);
    }
  }

  lemma NothingBooked(a: Account, t: Trade)
    requires SameDirection(a.net, t.Signed())
    ensures TrackerDelta(a, t) == 0 == ReplayDelta(a, t) && RoundsAlike(a, t)
  {
    assert SignedClosing(a.net, t.Signed()) == 0;
    NothingLost(0.0, a.avg - Truncate(a.avg) as real);
  }

  lemma NothingLost(c: real, x: real)
    requires c == 0.0 || x == 0.0
    ensures c * x == 0.0
  {
  }

  lemma WholeAverageRoundsAlike(a: Account, t: Trade)
    requires Closing(a.net, t.Signed()) == 0 || a.avg == Truncate(a.avg) as real
    ensures RoundsAlike(a, t)
  {
    assert Closing(a.net, t.Signed()) == 0 ==> SignedClosing(a.net, t.Signed()) == 0;
    NothingLost(SignedClosing(a.net, t.Signed()) as real, a.avg - Truncate(a.avg) as real);
  }

  /** After every prefix of the run the two have the same realized P&L. */
  ghost predicate SameThroughout(trades: TradeRun) {
    forall i :: 0 <= i <= |trades| ==> TrackerRun(trades[..i]).realized == ReplayRun(trades[..i]).realized
  }

  /** Every trade meets the condition at the position it finds. */
  ghost predicate AllRoundAlike(trades: TradeRun) {
    forall i :: 0 <= i < |trades| ==> RoundsAlike(TrackerRun(trades[..i]), trades[i])
  }

  lemma TradeAgrees(trades: seq<Trade>, i: nat)
    requires Positive(trades) && i < |trades|
    requires TrackerRun(trades[..i]).realized == ReplayRun(trades[..i]).realized
    ensures TrackerRun(trades[..i + 1]).realized == ReplayRun(trades[..i + 1]).realized
      <==> RoundsAlike(TrackerRun(trades[..i]), trades[i])
  {
    var a, b := TrackerRun(trades[..i]), ReplayRun(trades[..i]);
    SameAverages(trades[..i]);
    assert trades[..i + 1][..i] == trades[..i];
    DeltasAgree(a, trades[i]);
    assert ReplayDelta(a, trades[i]) == ReplayDelta(b, trades[i]);
  }

  lemma {:induction false} AgreeUpTo(trades: seq<Trade>, n: nat)
    requires Positive(trades) && n <= |trades| && AllRoundAlike(trades)
    ensures TrackerRun(trades[..n]).realized == ReplayRun(trades[..n]).realized
  {
    if n > 0 {
      AgreeUpTo(trades, n - 1);
      TradeAgrees(trades, n - 1);
    }
  }

  /** The two implementations have the same realized P&L all along a run if and only if every trade
      of it rounds alike. */
  lemma SameExactlyWhen(trades: TradeRun)
    ensures SameThroughout(trades) <==> AllRoundAlike(trades)
  {
    if AllRoundAlike(trades) {
      forall i | 0 <= i <= |trades| ensures TrackerRun(trades[..i]).realized == ReplayRun(trades[..i]).realized {
        AgreeUpTo(trades, i);
      }
    }
    if SameThroughout(trades) {
      forall i | 0 <= i < |trades| ensures RoundsAlike(TrackerRun(trades[..i]), trades[i]) {
        TradeAgrees(trades, i);
      }
    }
  }

  lemma RoundAlikeSnoc(init: seq<Trade>, t: Trade, trades: seq<Trade>)
    requires Positive(trades) && trades == init + [t]
    requires Positive(init) && AllRoundAlike(init) && RoundsAlike(TrackerRun(init), t)
    ensures AllRoundAlike(trades)
  {
    forall i | 0 <= i < |trades| ensures RoundsAlike(TrackerRun(trades[..i]), trades[i]) {
      if i < |init| {
        assert trades[..i] == init[..i] && RoundsAlike(TrackerRun(init[..i]), init[i]);
      } else {
        assert trades[..i] == init;
      }
    }
  }

  lemma {:induction false} IntegralClosesRoundAlike(trades: seq<Trade>)
    requires Positive(trades) && IntegralCloses(trades)
    ensures AllRoundAlike(trades)
  {
    if trades != [] {
      var init, t := trades[..|trades| - 1], trades[|trades| - 1];
      PositiveInit(trades);
      IntegralClosesRoundAlike(init);
      WholeAverageRoundsAlike(TrackerRun(init), t);
      RoundAlikeSnoc(init, t, trades);
    }
  }

  lemma ApartAtMost(trades: TradeRun)
    ensures AbsReal((TrackerRun(trades).realized - ReplayRun(trades).realized) as real)
         <= Closed(trades) as real + ClosingTrades(trades) as real * 0.5
  {
    SameAverages(trades);
    TrackerLedger(trades);
    ReplayLedger(trades);
    GapsApart(TrackerRun(trades), ReplayRun(trades), trades, Closed(trades) as real, ClosingTrades(trades) as real * 0.5);
  }

  /** The two implementations agree: same net position and same average entry at every step; realized
      P&L the same all along exactly when every trade rounds alike, in particular when every closing
      trade meets a whole average, and in any case apart by at most the contracts closed plus half
      the closing trades. */
  lemma ImplementationsAgree(trades: TradeRun)
    ensures var rust, python := TrackerRun(trades), ReplayRun(trades);
      && rust.net == python.net && rust.avg == python.avg
      && AbsReal((rust.realized - python.realized) as real) <= Closed(trades) as real + ClosingTrades(trades) as real * 0.5
    ensures SameThroughout(trades) <==> AllRoundAlike(trades)
    ensures IntegralCloses(trades) ==> SameThroughout(trades)
  {
    SameAverages(trades);
    ApartAtMost(trades);
    SameExactlyWhen(trades);
    if IntegralCloses(trades) {
      IntegralClosesRoundAlike(trades);
    }
  }

  lemma GapsApart(a: Account, b: Account, trades: seq<Trade>, j: real, k: real)
    requires a.net == b.net && a.avg == b.avg
    requires AbsReal(Gap(a, trades)) <= j && AbsReal(Gap(b, trades)) <= k
    ensures AbsReal((a.realized - b.realized) as real) <= j + k
  {
    assert Held(a) == Held(b);
  }

  lemma RunStep(init: seq<Trade>, t: Trade, trades: seq<Trade>)
    requires Positive(init) && t.quantity > 0 && trades == init + [t]
    ensures Positive(trades)
    ensures TrackerRun(trades) == Tracked(TrackerRun(init), t) && ReplayRun(trades) == Replayed(ReplayRun(init), t)
  {
    assert trades[..|trades| - 1] == init;
  }

  lemma OpensFlat(a: Account, t: Trade)
    requires a.net == 0 && t.quantity > 0
    ensures TrackerDelta(a, t) == 0 == ReplayDelta(a, t) && Average(a.net, a.avg, t) == t.price as real
  {
    assert SignedClosing(a.net, t.Signed()) == 0;
    BlendFlat(a.avg, t.price, t.quantity);
  }

  lemma BlendFlat(avg: real, price: int, added: nat)
    requires added > 0
    ensures Blend(avg, 0, price, added) == price as real
  {
    var p, q := price as real, added as real;
    assert avg * 0.0 == 0.0;
    assert p * q / q == p;
  }

  lemma BlendIs(avg: real, held: nat, price: int, added: nat, x: real)
    requires held > 0 && added > 0
    requires avg * held as real + price as real * added as real == x * (held as real + added as real)
    ensures Blend(avg, held, price, added) == x
  {
    CancelFactor(avg * held as real + price as real * added as real, x, held as real + added as real);
  }

  lemma HalfWay(p: int, q: nat)
    requires q > 0
    ensures Blend(p as real, q, p + 1, q) == p as real + 0.5
  {
    var x, y, n := p as real, (p + 1) as real, q as real;
    assert y == x + 1.0;
    Middle(x, n);
    BlendIs(x, q, p + 1, q, x + 0.5);
  }

  lemma Middle(x: real, n: real)
    ensures x * n + (x + 1.0) * n == (x + 0.5) * (n + n)
  {
  }

  lemma CancelFactor(product: real, x: real, n: real)
    requires n > 0.0 && product == x * n
    ensures product / n == x
  {
  }

  /** As many again, one tick higher: nothing is booked and the average ends in a half. */
  lemma Adds(a: Account, p: int, q: nat)
    requires a.net == q > 0 && a.avg == p as real
    ensures var t := Trade(Buy, q, p + 1);
      TrackerDelta(a, t) == 0 == ReplayDelta(a, t) && Average(a.net, a.avg, t) == p as real + 0.5
  {
    HalfWay(p, q);
    assert SignedClosing(q, q) == 0;
  }

  lemma HalfTickProfit(p: int, q: nat, price: int)
    ensures Profit(2 * q, price, p as real + 0.5) == (2 * q * (price - p) - q) as real
  {
    var n, x := q as real, (price - p) as real;
    IntToReal(2 * q, price - p);
    assert 2.0 * n * (x - 0.5) == 2.0 * n * x - n;
  }

  lemma RoundWhole(n: int)
    ensures Round(n as real) == n
  {
  }

  lemma SellsBoth(a: Account, t: Trade, p: nat, q: nat)
    requires a.net == 2 * q && a.avg == p as real + 0.5 && q > 0
    requires t.side == Sell && t.quantity == 2 * q
    ensures TrackerDelta(a, t) == 2 * q * (t.price - p)
    ensures ReplayDelta(a, t) == 2 * q * (t.price - p) - q
  {
    assert SignedClosing(a.net, t.Signed()) == 2 * q;
    assert Truncate(a.avg) == p;
    HalfTickProfit(p, q, t.price);
    RoundWhole(2 * q * (t.price - p) - q);
  }

  /** They do differ, by as much as one likes: after buying q at p and q at p + 1 and selling all of it,
      the tracker has booked q more than the replay. */
  lemma ImplementationsDiffer(p: nat, q: nat, price: int, one: seq<Trade>, two: seq<Trade>, three: seq<Trade>)
    requires q > 0 && one == [Trade(Buy, q, p)]
    requires two == one + [Trade(Buy, q, p + 1)] && three == two + [Trade(Sell, 2 * q, price)]
    ensures Positive(three) && TrackerRun(three).realized == ReplayRun(three).realized + q
  {
    var none: seq<Trade> := [];
    var t1, t2, t3 := Trade(Buy, q, p), Trade(Buy, q, p + 1), Trade(Sell, 2 * q, price);
    assert one == none + [t1];
    RunStep(none, t1, one);
    OpensFlat(Flat, t1);
    RunStep(one, t2, two);
    Adds(TrackerRun(one), p, q);
    Adds(ReplayRun(one), p, q);
    RunStep(two, t3, three);
    SellsBoth(TrackerRun(two), t3, p, q);
    SellsBoth(ReplayRun(two), t3, p, q);
  }
}
