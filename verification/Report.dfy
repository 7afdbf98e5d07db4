/** The offline backtest report (strategy/orderbook_client/backtest_report.py): equity curve,
    drawdown and win rate over a trade log. */
module Report {
  import opened Orders
  import opened Position

  datatype Row = FillRow(trade: Trade) | OtherRow

  datatype BacktestReport = BacktestReport(sharpeRatio: real, maxDrawdown: int, winRate: real, numTrades: nat, totalRealized: int)

  /** The fills of a trade log. */
  function Trades(rows: seq<Row>): seq<Trade> {
    if rows == [] then []
    else
      var last := rows[|rows| - 1];
      Trades(rows[..|rows| - 1]) + if last.FillRow? then [last.trade] else []
  }

  /** The realized P&L that each fill books. */
  function Deltas(trades: TradeRun): (d: seq<int>)
    ensures |d| == |trades|
  {
    if trades == [] then []
    else Deltas(trades[..|trades| - 1]) + [ReplayDelta(ReplayRun(trades[..|trades| - 1]), trades[|trades| - 1])]
  }

  function Total(xs: seq<int>): int {
    if xs == [] then 0 else Total(xs[..|xs| - 1]) + xs[|xs| - 1]
  }

  /** Running totals, starting at 0. */
  function Equity(deltas: seq<int>): (curve: seq<int>)
    ensures |curve| == |deltas| + 1
  {
    if deltas == [] then [0]
    else Equity(deltas[..|deltas| - 1]) + [Total(deltas[..|deltas| - 1]) + deltas[|deltas| - 1]]
  }

  function NonZero(xs: seq<int>): seq<int> {
    if xs == [] then []
    else NonZero(xs[..|xs| - 1]) + if xs[|xs| - 1] != 0 then [xs[|xs| - 1]] else []
  }

  function Wins(xs: seq<int>): nat {
    if xs == [] then 0 else Wins(xs[..|xs| - 1]) + if xs[|xs| - 1] > 0 then 1 else 0
  }

  /** The deepest fall of the curve from any point to any later one. */
  ghost predicate IsMaxDrawdown(curve: seq<int>, d: int) {
    && (exists i, j :: 0 <= i <= j < |curve| && d == curve[j] - curve[i])
    && (forall i, j :: 0 <= i <= j < |curve| ==> d <= curve[j] - curve[i])
  }

  /** One pass with a running peak finds it. */
  method MaxDrawdown(curve: seq<int>) returns (maxDd: int)
    requires curve != []
    ensures IsMaxDrawdown(curve, maxDd)
  {
    var peak := curve[0];
    maxDd := 0;
    ghost var top, low, from := 0, 0, 0;
    for k := 0 to |curve|
      invariant top < |curve| && (top < k || top == k == 0) && peak == curve[top]
      invariant forall i :: 0 <= i < k ==> curve[i] <= peak
      invariant from <= low < |curve| && (low < k || low == k == 0) && maxDd == curve[low] - curve[from]
      invariant forall i, j :: 0 <= i <= j < k ==> maxDd <= curve[j] - curve[i]
    {
      var value := curve[k];
      if value > peak {
        top := k;
      }
      peak := Max(peak, value);
      if value - peak < maxDd {
        from, low := top, k;
      }
      maxDd := Min(maxDd, value - peak);
    }
  }

  lemma MaxDrawdownUnique(curve: seq<int>, d: int, e: int)
    requires IsMaxDrawdown(curve, d) && IsMaxDrawdown(curve, e)
    ensures d == e
  {
    var i, j :| 0 <= i <= j < |curve| && d == curve[j] - curve[i];
    var k, l :| 0 <= k <= l < |curve| && e == curve[l] - curve[k];
  }

  method WinRate(pnls: seq<int>) returns (r: real)
    ensures r == if pnls == [] then 0.0 else Wins(pnls) as real / |pnls| as real
  {
    if pnls == [] {
      return 0.0;
    }
    var wins := 0;
    for i := 0 to |pnls|
      invariant wins == Wins(pnls[..i])
    {
      assert pnls[..i + 1][..i] == pnls[..i];
      if pnls[i] > 0 {
        wins := wins + 1;
      }
    }
    TakeAll(pnls);
    r := wins as real / |pnls| as real;
  }

  lemma TradesPositive(rows: seq<Row>, i: nat)
    requires i < |rows| && Positive(Trades(rows[..i + 1]))
    ensures Positive(Trades(rows[..i]))
    ensures rows[i].FillRow? ==> rows[i].trade.quantity > 0 && Trades(rows[..i + 1]) == Trades(rows[..i]) + [rows[i].trade]
    ensures rows[i].OtherRow? ==> Trades(rows[..i + 1]) == Trades(rows[..i])
  {
    assert rows[..i + 1][..i] == rows[..i];
    if rows[i].FillRow? {
      assert rows[i].trade in Trades(rows[..i + 1]);
      assert forall t :: t in Trades(rows[..i]) ==> t in Trades(rows[..i + 1]);
    }
  }

  lemma {:induction false} TradesPrefixPositive(rows: seq<Row>, i: nat)
    requires i <= |rows| && Positive(Trades(rows))
    ensures Positive(Trades(rows[..i]))
    decreases |rows| - i
  {
    if i < |rows| {
      TradesPrefixPositive(rows, i + 1);
      TradesPositive(rows, i);
    } else {
      TakeAll(rows);
    }
  }

  lemma DeltasSnoc(trades: seq<Trade>, t: Trade)
    requires Positive(trades) && t.quantity > 0
    ensures Positive(trades + [t])
    ensures Deltas(trades + [t]) == Deltas(trades) + [ReplayDelta(ReplayRun(trades), t)]
    ensures ReplayRun(trades + [t]) == Replayed(ReplayRun(trades), t)
  {
    assert (trades + [t])[..|trades|] == trades;
  }

  lemma EquityEnds(deltas: seq<int>)
    ensures Equity(deltas)[|deltas|] == Total(deltas)
  {
  }

  lemma EquitySnoc(xs: seq<int>, x: int)
    ensures Equity(xs + [x]) == Equity(xs) + [Total(xs) + x]
  {
    var all := xs + [x];
    assert all != [] && all[..|all| - 1] == xs && all[|all| - 1] == x;
  }

  lemma NonZeroSnoc(xs: seq<int>, x: int)
    ensures NonZero(xs + [x]) == NonZero(xs) + if x != 0 then [x] else []
  {
    assert (xs + [x])[..|xs|] == xs;
  }

  // ----- the Sharpe ratio -----

  function Mean(xs: seq<int>): real
    requires xs != []
  {
    Total(xs) as real / |xs| as real
  }

  function Squared(x: real): real {
    x * x
  }

  lemma SameSigns(x: real, y: real, q: real)
    requires q == x * y && ((x > 0.0 && y > 0.0) || (x < 0.0 && y < 0.0))
    ensures q > 0.0
  {
  }

  lemma Square(x: real)
    ensures Squared(x) >= 0.0 && (Squared(x) == 0.0 <==> x == 0.0)
  {
    if x != 0.0 {
      SameSigns(x, x, Squared(x));
    }
  }

  /** The sum of squared distances from m. */
  function Spread(xs: seq<int>, m: real): real {
    if xs == [] then 0.0
    else Spread(xs[..|xs| - 1], m) + Squared(xs[|xs| - 1] as real - m)
  }

  /** statistics.stdev: the root of the sample variance. */
  function Deviation(root: real -> real, xs: seq<int>): real
    requires |xs| >= 2
  {
    root(Spread(xs, Mean(xs)) / (|xs| - 1) as real)
  }

  /** _sharpe_ratio */
  function SharpeRatio(root: real -> real, xs: seq<int>, periods: real): real {
    if |xs| < 2 || Deviation(root, xs) == 0.0 then 0.0
    else Mean(xs) / Deviation(root, xs) * root(periods)
  }

  /** root takes square roots. */
  ghost predicate IsRoot(root: real -> real) {
    forall x :: x >= 0.0 ==> root(x) >= 0.0 && Squared(root(x)) == x
  }

  ghost predicate AllEqual(xs: seq<int>) {
    forall i, j :: 0 <= i < j < |xs| ==> xs[i] == xs[j]
  }

  /** The spread is never negative, and zero only when every number is m. */
  lemma {:induction false} SpreadZero(xs: seq<int>, m: real)
    ensures Spread(xs, m) >= 0.0
    ensures Spread(xs, m) == 0.0 <==> forall i :: 0 <= i < |xs| ==> xs[i] as real == m
  {
    if xs != [] {
      var init, x := xs[..|xs| - 1], xs[|xs| - 1] as real - m;
      SpreadZero(init, m);
      Square(x);
      assert forall i :: 0 <= i < |init| ==> init[i] == xs[i];
    }
  }

  lemma {:induction false} TotalOfEquals(xs: seq<int>, x: int)
    requires forall i :: 0 <= i < |xs| ==> xs[i] == x
    ensures Total(xs) == |xs| * x
  {
    if xs != [] {
      TotalOfEquals(xs[..|xs| - 1], x);
    }
  }

  /** The spread around the mean vanishes exactly when all numbers are equal. */
  lemma NoSpread(xs: seq<int>)
    requires xs != []
    ensures Spread(xs, Mean(xs)) == 0.0 <==> AllEqual(xs)
  {
    SpreadZero(xs, Mean(xs));
    if AllEqual(xs) {
      TotalOfEquals(xs, xs[0]);
      MeanOfEquals(|xs|, xs[0]);
    }
  }

  lemma MeanOfEquals(n: nat, x: int)
    requires n > 0
    ensures (n * x) as real / n as real == x as real
  {
    IntToReal(n, x);
  }

  lemma RootZero(root: real -> real, x: real)
    requires IsRoot(root) && x >= 0.0
    ensures root(x) >= 0.0 && (root(x) == 0.0 <==> x == 0.0)
  {
    Square(root(x));
  }

  lemma QuotientSign(x: real, y: real)
    requires y > 0.0
    ensures x / y > 0.0 <==> x > 0.0
    ensures x / y < 0.0 <==> x < 0.0
  {
  }

  lemma DeviationSign(root: real -> real, xs: seq<int>)
    requires IsRoot(root) && |xs| >= 2
    ensures Deviation(root, xs) >= 0.0 && (Deviation(root, xs) == 0.0 <==> AllEqual(xs))
  {
    var n := (|xs| - 1) as real;
    SpreadZero(xs, Mean(xs));
    NoSpread(xs);
    QuotientSign(Spread(xs, Mean(xs)), n);
    RootZero(root, Spread(xs, Mean(xs)) / n);
  }

  function SumOfSquares(xs: seq<int>): int {
    if xs == [] then 0 else SumOfSquares(xs[..|xs| - 1]) + xs[|xs| - 1] * xs[|xs| - 1]
  }

  lemma {:induction false} SpreadIs(xs: seq<int>, m: real)
    ensures SpreadLaw(Spread(xs, m), SumOfSquares(xs) as real, Total(xs) as real, |xs| as real, m)
  {
    if xs != [] {
      var n, x := |xs| - 1, xs[|xs| - 1];
      SpreadIs(xs[..n], m);
      IntToReal(x, x);
      SpreadStep(Spread(xs[..n], m), Spread(xs, m), SumOfSquares(xs[..n]) as real, SumOfSquares(xs) as real,
                 Total(xs[..n]) as real, Total(xs) as real, n as real, |xs| as real, x as real, m);
    }
  }

  /** The spread around m, from sum, sum of squares and count. */
  predicate SpreadLaw(spread: real, s: real, t: real, n: real, m: real) {
    spread == s - 2.0 * m * t + n * (m * m)
  }

  lemma SpreadStep(p0: real, p: real, s0: real, s: real, t0: real, t: real, n0: real, n: real, x: real, m: real)
    requires SpreadLaw(p0, s0, t0, n0, m)
    requires p == p0 + Squared(x - m) && s == s0 + x * x && t == t0 + x && n == n0 + 1.0
    ensures SpreadLaw(p, s, t, n, m)
  {
  }

  predicate MeanLaw(m: real, n: real, t: real) {
    m * n == t
  }

  /** n times the spread around the mean. */
  predicate DispersionLaw(n: real, spread: real, dispersion: real) {
    n * spread == dispersion
  }

  /** n - 1 times the square of the deviation. */
  predicate SampleLaw(n: real, d: real, spread: real) {
    d * d * (n - 1.0) == spread
  }

  lemma SpreadAround(xs: seq<int>, m: real)
    requires MeanLaw(m, |xs| as real, Total(xs) as real)
    ensures DispersionLaw(|xs| as real, Spread(xs, m), Dispersion(xs))
  {
    SpreadIs(xs, m);
    AroundMean(|xs| as real, m, SumOfSquares(xs) as real, Total(xs) as real, Spread(xs, m));
  }

  lemma AroundMean(n: real, m: real, s: real, t: real, spread: real)
    requires MeanLaw(m, n, t) && SpreadLaw(spread, s, t, n, m)
    ensures DispersionLaw(n, spread, DispersionOf(n, s, t))
  {
    assert n * (2.0 * m * t) == 2.0 * (m * n) * t && n * (n * (m * m)) == (m * n) * (m * n);
  }

  lemma QuotientTimesAgain(x: real, y: real) returns (q: real)
    requires y != 0.0
    ensures q == x / y && q * y == x
  {
    q := x / y;
  }

  /** The deviation, its mean and the spread around it. */
  lemma DeviationFrom(root: real -> real, xs: seq<int>) returns (m: real, d: real)
    requires IsRoot(root) && |xs| >= 2
    ensures m == Mean(xs) && d == Deviation(root, xs)
    ensures MeanLaw(m, |xs| as real, Total(xs) as real) && SampleLaw(|xs| as real, d, Spread(xs, m))
  {
    m, d := Mean(xs), Deviation(root, xs);
    var k := (|xs| - 1) as real;
    var q := QuotientTimesAgain(Total(xs) as real, |xs| as real);
    var v := QuotientTimesAgain(Spread(xs, m), k);
    SpreadZero(xs, m);
    QuotientSign(Spread(xs, m), k);
    assert d == root(v) && Squared(d) == v;
  }

  /** n times the sum of squares less the square of the sum. */
  function DispersionOf(n: real, s: real, t: real): real {
    n * s - Squared(t)
  }

  function Dispersion(xs: seq<int>): real {
    DispersionOf(|xs| as real, SumOfSquares(xs) as real, Total(xs) as real)
  }

  /** n (n - 1) times the square of d. */
  predicate VarianceLaw(n: real, d: real, dispersion: real) {
    n * (n - 1.0) * Squared(d) == dispersion
  }

  /** d is the deviation of a sample: n (n - 1) times its square is n times the sum of squares less the
      square of the sum. */
  predicate IsSampleDeviation(xs: seq<int>, d: real) {
    VarianceLaw(|xs| as real, d, Dispersion(xs))
  }

  lemma DeviationIs(root: real -> real, xs: seq<int>)
    requires IsRoot(root) && |xs| >= 2
    ensures IsSampleDeviation(xs, Deviation(root, xs))
  {
    var m, d := DeviationFrom(root, xs);
    SampleDeviation(xs, m, d);
  }

  lemma SampleDeviation(xs: seq<int>, m: real, d: real)
    requires MeanLaw(m, |xs| as real, Total(xs) as real) && SampleLaw(|xs| as real, d, Spread(xs, m))
    ensures IsSampleDeviation(xs, d)
  {
    SpreadAround(xs, m);
    Grouped(|xs| as real, d, Spread(xs, m), Dispersion(xs));
  }

  lemma Grouped(n: real, d: real, spread: real, dispersion: real)
    requires SampleLaw(n, d, spread) && DispersionLaw(n, spread, dispersion)
    ensures VarianceLaw(n, d, dispersion)
  {
    assert n * (n - 1.0) * (d * d) == n * (d * d * (n - 1.0));
  }

  /** r is the Sharpe ratio, in closed form and squared: the mean over the sample deviation, scaled by the
      root of the periods a year. */
  predicate IsSharpe(xs: seq<int>, periods: real, r: real) {
    SharpeLaw(r, |xs| as real, Dispersion(xs), Total(xs) as real, periods)
  }

  predicate SharpeLaw(r: real, n: real, dispersion: real, t: real, periods: real) {
    Squared(r) * (n * dispersion) == (n - 1.0) * Squared(t) * periods
  }

  lemma SharpeIs(root: real -> real, xs: seq<int>, periods: real)
    requires IsRoot(root) && periods >= 0.0 && |xs| >= 2 && !AllEqual(xs)
    ensures IsSharpe(xs, periods, SharpeRatio(root, xs, periods))
  {
    var m, d, z, r, s := SharpeFrom(root, xs, periods);
    SampleSharpe(xs, m, d, z, r, s, periods);
  }

  lemma SharpeFrom(root: real -> real, xs: seq<int>, periods: real)
      returns (m: real, d: real, z: real, r: real, s: real)
    requires IsRoot(root) && periods >= 0.0 && |xs| >= 2 && !AllEqual(xs)
    ensures s == SharpeRatio(root, xs, periods) && s == z * r && z * d == m && Squared(r) == periods
    ensures MeanLaw(m, |xs| as real, Total(xs) as real) && IsSampleDeviation(xs, d)
  {
    DeviationSign(root, xs);
    DeviationIs(root, xs);
    m, d := DeviationFrom(root, xs);
    z := QuotientTimesAgain(m, d);
    r := root(periods);
    s := z * r;
  }

  lemma SampleSharpe(xs: seq<int>, m: real, d: real, z: real, r: real, s: real, periods: real)
    requires s == z * r && z * d == m && Squared(r) == periods
    requires MeanLaw(m, |xs| as real, Total(xs) as real) && IsSampleDeviation(xs, d)
    ensures IsSharpe(xs, periods, s)
  {
    Ratio(z, d, m, |xs| as real, Total(xs) as real, r, periods, Dispersion(xs));
  }

  lemma Ratio(z: real, d: real, m: real, n: real, t: real, r: real, periods: real, dispersion: real)
    requires z * d == m && MeanLaw(m, n, t) && Squared(r) == periods && VarianceLaw(n, d, dispersion)
    ensures SharpeLaw(z * r, n, dispersion, t, periods)
  {
    Squares(z, d, m);
    Squares(m, n, t);
    Squares(z, r, z * r);
    Collected(Squared(z * r), Squared(z), Squared(r), n, Squared(d), Squared(m), Squared(t), periods, dispersion);
  }

  lemma Squares(x: real, y: real, z: real)
    requires x * y == z
    ensures Squared(x) * Squared(y) == Squared(z)
  {
    assert (x * x) * (y * y) == (x * y) * (x * y);
  }

  lemma Collected(zr: real, z: real, r: real, n: real, d: real, m: real, t: real, periods: real, dispersion: real)
    requires zr == z * r && z * d == m && m * Squared(n) == t && r == periods && n * (n - 1.0) * d == dispersion
    ensures zr * (n * dispersion) == (n - 1.0) * t * periods
  {
    assert zr * (n * (n * (n - 1.0) * d)) == (z * d) * (n * n) * (n - 1.0) * r;
    assert (z * d) * (n * n) == t;
  }

  /** Wins are the positive entries. */
  lemma {:induction false} WinsAre(xs: seq<int>)
    ensures Wins(xs) == |set i | 0 <= i < |xs| && xs[i] > 0|
  {
    var wins := set i | 0 <= i < |xs| && xs[i] > 0;
    if xs == [] {
      assert wins == {};
    } else {
      var n := |xs| - 1;
      WinsAre(xs[..n]);
      var before := set i | 0 <= i < |xs[..n]| && xs[..n][i] > 0;
      assert wins == before + if xs[n] > 0 then {n} else {};
    }
  }

  /** The curve is the running total. */
  lemma {:induction false} EquityAt(deltas: seq<int>, i: nat)
    requires i <= |deltas|
    ensures Equity(deltas)[i] == Total(deltas[..i])
  {
    if i < |deltas| {
      EquityAt(deltas[..|deltas| - 1], i);
      assert deltas[..|deltas| - 1][..i] == deltas[..i];
    } else {
      TakeAll(deltas);
    }
  }

  /** The Sharpe ratio has the sign of the total P&L when there are two trades that differ, and is
      zero otherwise. */
  lemma SharpeSign(root: real -> real, xs: seq<int>, periods: real)
    requires IsRoot(root) && periods > 0.0
    ensures SharpeRatio(root, xs, periods) > 0.0 <==> |xs| >= 2 && !AllEqual(xs) && Total(xs) > 0
    ensures SharpeRatio(root, xs, periods) < 0.0 <==> |xs| >= 2 && !AllEqual(xs) && Total(xs) < 0
  {
    if |xs| >= 2 {
      DeviationSign(root, xs);
      if Deviation(root, xs) != 0.0 {
        RootZero(root, periods);
        QuotientSign(Total(xs) as real, |xs| as real);
        QuotientSign(Mean(xs), Deviation(root, xs));
        ProductSign(Mean(xs) / Deviation(root, xs), root(periods));
      }
    }
  }

  lemma ProductSign(x: real, y: real)
    requires y > 0.0
    ensures x * y > 0.0 <==> x > 0.0
    ensures x * y < 0.0 <==> x < 0.0
  {
  }

  // ----- the report -----

  /** The account, the recorded P&Ls and the curve are those of these fills. */
  ghost predicate Recorded(trades: seq<Trade>, a: Account, pnls: seq<int>, curve: seq<int>) {
    Positive(trades) && a == ReplayRun(trades) && pnls == NonZero(Deltas(trades)) && curve == Equity(Deltas(trades))
  }

  lemma RecordedSnoc(trades: seq<Trade>, t: Trade, a: Account, pnls: seq<int>, curve: seq<int>, delta: int)
    requires Recorded(trades, a, pnls, curve) && t.quantity > 0 && delta == ReplayDelta(a, t)
    ensures curve != []
    ensures Recorded(trades + [t], Replayed(a, t), pnls + (if delta != 0 then [delta] else []),
                     curve + [curve[|curve| - 1] + delta])
  {
    DeltasSnoc(trades, t);
    EquityEnds(Deltas(trades));
    EquitySnoc(Deltas(trades), delta);
    NonZeroSnoc(Deltas(trades), delta);
  }

  /** A fill row adds its trade to the fills so far, any other row nothing. */
  lemma RowTrades(rows: seq<Row>, i: nat)
    requires i < |rows| && Positive(Trades(rows))
    ensures rows[i].FillRow? ==> rows[i].trade.quantity > 0 && Trades(rows[..i + 1]) == Trades(rows[..i]) + [rows[i].trade]
    ensures rows[i].OtherRow? ==> Trades(rows[..i + 1]) == Trades(rows[..i])
  {
    TradesPrefixPositive(rows, i + 1);
    TradesPositive(rows, i);
  }

  /** The pass over the log: every fill row goes through the replay, its P&L is recorded unless it is
      zero, and the curve goes on by it. */
  method ReplayLog(rows: seq<Row>) returns (tradePnls: seq<int>, equityCurve: seq<int>, realized: int)
    requires Positive(Trades(rows))
    ensures realized == ReplayRun(Trades(rows)).realized
    ensures tradePnls == NonZero(Deltas(Trades(rows))) && equityCurve == Equity(Deltas(Trades(rows)))
  {
    var replay := new PositionReplay();
    tradePnls, equityCurve := [], [0];
    ghost var account := replay.State();
    for i := 0 to |rows|
      invariant fresh(replay) && replay.State() == account
      invariant Recorded(Trades(rows[..i]), account, tradePnls, equityCurve)
    {
      RowTrades(rows, i);
      if rows[i].OtherRow? {
        continue;
      }
      var t := rows[i].trade;
      RecordedSnoc(Trades(rows[..i]), t, account, tradePnls, equityCurve, ReplayDelta(account, t));
      account := Replayed(account, t);
      var delta := replay.OnFill(t.side, t.quantity, t.price);
      if delta != 0 {
        tradePnls := tradePnls + [delta];
      }
      equityCurve := equityCurve + [equityCurve[|equityCurve| - 1] + delta];
    }
    TakeAll(rows);
    realized := replay.realizedPnlTicks;
  }

  /** The report over a trade log: its numbers are those of the fills' P&L, in log order. */
  method BuildReport(root: real -> real, rows: seq<Row>, periodsPerYear: real) returns (r: BacktestReport)
    requires Positive(Trades(rows))
    ensures var pnls := NonZero(Deltas(Trades(rows)));
      && r.totalRealized == ReplayRun(Trades(rows)).realized
      && r.numTrades == |pnls|
      && r.winRate == (if pnls == [] then 0.0 else Wins(pnls) as real / |pnls| as real)
      && r.sharpeRatio == SharpeRatio(root, pnls, periodsPerYear)
      && IsMaxDrawdown(Equity(Deltas(Trades(rows))), r.maxDrawdown)
  {
    var tradePnls, equityCurve, realized := ReplayLog(rows);
    var maxDrawdown := MaxDrawdown(equityCurve);
    var winRate := WinRate(tradePnls);
    r := BacktestReport(SharpeRatio(root, tradePnls, periodsPerYear), maxDrawdown, winRate, |tradePnls|, realized);
  }

  lemma TotalSnoc(xs: seq<int>, x: int)
    ensures Total(xs + [x]) == Total(xs) + x
  {
    var all := xs + [x];
    assert all != [] && all[..|all| - 1] == xs && all[|all| - 1] == x;
  }

  lemma {:induction false} NonZeroTotal(xs: seq<int>)
    ensures Total(NonZero(xs)) == Total(xs)
  {
    if xs != [] {
      var init, x := xs[..|xs| - 1], xs[|xs| - 1];
      NonZeroTotal(init);
      TotalSnoc(NonZero(init), x);
      assert NonZero(init) + [] == NonZero(init);
    }
  }

  /** The equity curve ends at the total realized P&L, which is also the sum of the trade P&Ls recorded. */
  lemma {:induction false} EquityEndsAtRealized(trades: TradeRun)
    ensures Equity(Deltas(trades))[|trades|] == ReplayRun(trades).realized == Total(NonZero(Deltas(trades)))
  {
    NonZeroTotal(Deltas(trades));
    EquityEnds(Deltas(trades));
    if trades != [] {
      var init := trades[..|trades| - 1];
      PositiveInit(trades);
      EquityEndsAtRealized(init);
      assert Deltas(trades)[..|trades| - 1] == Deltas(init);
    }
  }
}
