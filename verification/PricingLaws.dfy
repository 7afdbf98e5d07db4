/** What the pricer's formulas are (risk/src/pricing.rs), in exact arithmetic: the approximated
    distribution is one, the Greeks are derivatives of one price, and the two densities balance. */
module PricingLaws {
  import opened Pricing

  lemma Mul(a: ExactArithmetic, x: real, y: real)
    ensures a.mul(x, y) == x * y
  {
    assert ProductAt(a, x, y);
  }

  lemma Add(a: ExactArithmetic, x: real, y: real)
    ensures a.add(x, y) == x + y && a.sub(x, y) == x - y && a.neg(x) == -x
  {
    assert LinearAt(a, x, y);
  }

  lemma Div(a: ExactArithmetic, x: real, y: real)
    requires y != 0.0
    ensures a.div(x, y) == x / y
  {
    assert QuotientAt(a, x, y);
  }

  // ----- the polynomial -----

  /** The polynomial of Abramowitz and Stegun, formula 26.2.17. */
  function Polynomial(t: real): real {
    t * Outer(t)
  }

  function Outer(t: real): real {
    0.319381530 + t * (-0.356563782 + t * Inner(t))
  }

  function Inner(t: real): real {
    1.781477937 + t * (-1.821255978 + t * 1.330274429)
  }

  lemma HornerStep(a: ExactArithmetic, t: real, b: real, x: real)
    ensures a.mul(t, a.add(b, x)) == t * (b + x)
  {
    Add(a, b, x);
    Mul(a, t, b + x);
  }

  lemma PolyIs(a: ExactArithmetic, t: real)
    ensures Poly(a, t) == Polynomial(t)
  {
    var x5 := t * 1.330274429;
    var x4 := t * (-1.821255978 + x5);
    var x3 := t * (1.781477937 + x4);
    var x2 := t * (-0.356563782 + x3);
    Mul(a, t, B5);
    HornerStep(a, t, B4, x5);
    HornerStep(a, t, B3, x4);
    HornerStep(a, t, B2, x3);
    HornerStep(a, t, B1, x2);
  }

  /** At one half, and at one; a change of any one coefficient changes both. */
  lemma PolyAt(a: ExactArithmetic)
    ensures Poly(a, 0.5) == 0.22097713890625 && Poly(a, 1.0) == 1.253314136
  {
    PolyIs(a, 0.5);
    PolyIs(a, 1.0);
  }

  /** Positive products. */
  lemma Positive(x: real, y: real)
    ensures x > 0.0 && y > 0.0 ==> x * y > 0.0
    ensures x >= 0.0 && y >= 0.0 ==> x * y >= 0.0
  {
  }

  lemma Times(t: real, x: real, low: real, high: real)
    requires 0.0 < t <= 1.0 && low <= x <= high
    ensures t * low <= t * x <= t * high
    ensures (high >= 0.0 ==> t * x <= high) && (low <= 0.0 ==> low <= t * x)
  {
    Positive(t, x - low);
    Positive(t, high - x);
    Positive(1.0 - t, high);
    Positive(1.0 - t, -low);
    assert t * (x - low) == t * x - t * low && t * (high - x) == t * high - t * x;
    assert (1.0 - t) * high == high - t * high && (1.0 - t) * -low == -low + t * low;
  }

  /** The inner quadratic of the polynomial stays between these. */
  lemma InnerBounds(t: real)
    requires 0.0 < t <= 1.0
    ensures 1.15 < Inner(t) <= 1.781477937
  {
    var x := t - 0.6845;
    Positive(x * x, 1.330274429);
    Square(x);
    assert t * (-1.821255978 + t * 1.330274429)
        == 1.330274429 * (x * x) - 1.330274429 * 0.6845 * 0.6845 + t * (2.0 * 0.6845 * 1.330274429 - 1.821255978);
    Times(t, 2.0 * 0.6845 * 1.330274429 - 1.821255978, -0.001, 0.001);
    Times(t, -1.821255978 + t * 1.330274429, -1.821255978, 0.0);
  }

  lemma Square(x: real)
    ensures x * x >= 0.0
  {
    Positive(x, x);
    Positive(-x, -x);
    assert (-x) * (-x) == x * x;
  }

  lemma MiddleBound(t: real, q: real)
    requires 0.0 < t <= 1.0 && q > 1.15
    ensures t * (-0.356563782 + t * q) > -0.03
  {
    var x := t - 0.155;
    Positive(t, t);
    Positive(t * t, q - 1.15);
    Square(x);
    Completed(t, q);
  }

  /** Completing the square. */
  lemma Completed(t: real, q: real)
    ensures t * (-0.356563782 + t * q)
         == t * t * (q - 1.15) + 1.15 * ((t - 0.155) * (t - 0.155)) - 0.02762875 - 0.000063782 * t
  {
  }

  lemma OuterPositive(t: real)
    requires 0.0 < t <= 1.0
    ensures Outer(t) > 0.0
  {
    InnerBounds(t);
    MiddleBound(t, Inner(t));
  }

  lemma PolynomialPositive(t: real)
    requires 0.0 < t <= 1.0
    ensures Polynomial(t) > 0.0
  {
    OuterPositive(t);
    Positive(t, Outer(t));
  }

  /** It grows up to its value at one. */
  lemma PolynomialBelow(t: real)
    requires 0.0 < t <= 1.0
    ensures Polynomial(t) <= 1.253314136
  {
    var s := 1.253314136 + t * (0.933932606 + t * (1.290496388 + t * (-0.490981549 + t * 1.330274429)));
    Positive(t, t);
    Positive(t, t * t);
    var inner := 1.290496388 + t * (-0.490981549 + t * 1.330274429);
    Times(t, 1.330274429, 0.0, 1.330274429);
    Times(t, -0.490981549 + t * 1.330274429, -0.490981549, 1.0);
    Positive(t, inner);
    Positive(t, 0.933932606 + t * inner);
    Positive(1.0 - t, s);
    Telescoped(t);
  }

  lemma Telescoped(t: real)
    ensures 1.253314136 - Polynomial(t)
         == (1.0 - t) * (1.253314136 + t * (0.933932606 + t * (1.290496388 + t * (-0.490981549 + t * 1.330274429))))
  {
  }

  // ----- the distribution -----

  /** The exponential of what is not positive is a proper fraction, or one. */
  predicate FractionAt(a: Arithmetic, y: real) {
    y <= 0.0 ==> 0.0 < a.exp(y) <= 1.0
  }

  ghost predicate Fractions(a: Arithmetic) {
    forall y :: FractionAt(a, y)
  }

  lemma DensityIs(a: ExactArithmetic, x: real)
    ensures NormPdf(a, x) == a.exp(-0.5 * x * x) / 2.5066282746310002
  {
    var h := a.mul(-0.5, x);
    var y := a.mul(h, x);
    Mul(a, -0.5, x);
    Mul(a, h, x);
    assert y == -0.5 * x * x;
    Div(a, a.exp(y), SQRT_2PI);
  }

  lemma DensityBounds(a: ExactArithmetic, x: real)
    requires Fractions(a)
    ensures 0.0 < NormPdf(a, x) <= 1.0 / 2.5066282746310002
  {
    DensityIs(a, x);
    Square(x);
    assert -0.5 * x * x == -0.5 * (x * x);
    assert FractionAt(a, -0.5 * x * x);
    Quotients(a.exp(-0.5 * x * x), 2.5066282746310002);
  }

  lemma Quotients(x: real, y: real)
    requires y > 0.0
    ensures x > 0.0 ==> x / y > 0.0
    ensures x <= 1.0 ==> x / y <= 1.0 / y
  {
    var q, u := x / y, 1.0 / y;
    assert q * y == x && u * y == 1.0;
    Positive(-q, y);
    Positive(q - u, y);
    assert (-q) * y == -x && (q - u) * y == x - 1.0;
  }

  /** The distance from zero, and the point it gives the polynomial. */
  function Far(x: real): real {
    if x < 0.0 then -x else x
  }

  function Point(a: Arithmetic, x: real): real {
    a.div(1.0, a.add(1.0, a.mul(P, Far(x))))
  }

  /** The point is between zero and one. */
  lemma PointBounds(a: ExactArithmetic, x: real)
    ensures 0.0 < Point(a, x) <= 1.0 && Point(a, x) * (1.0 + 0.2316419 * Far(x)) == 1.0
  {
    var px := a.mul(P, Far(x));
    var y := a.add(1.0, px);
    Mul(a, P, Far(x));
    Positive(0.2316419, Far(x));
    Add(a, 1.0, px);
    Div(a, 1.0, y);
    Quotients(1.0, y);
    Reciprocal(y);
  }

  lemma Reciprocal(y: real)
    requires y >= 1.0
    ensures 1.0 / y <= 1.0 && 1.0 / y * y == 1.0
  {
    var u := 1.0 / y;
    assert u * y == 1.0;
    Positive(u - 1.0, y);
    assert (u - 1.0) * y == 1.0 - y;
  }

  /** Density times polynomial. */
  function TailOf(a: Arithmetic, x: real): real {
    a.mul(NormPdf(a, Far(x)), Poly(a, Point(a, x)))
  }

  /** The distribution is one less the tail to the right of zero, and the tail to the left. */
  lemma DistributionIs(a: ExactArithmetic, x: real)
    ensures NormCdf(a, x) == if x < 0.0 then TailOf(a, x) else 1.0 - TailOf(a, x)
  {
    assert LinearAt(a, x, 0.0);
    assert a.abs(x) == Far(x);
    FromTail(a, TailOf(a, x));
  }

  lemma FromTail(a: ExactArithmetic, tail: real)
    ensures a.add(0.5, a.mul(1.0, a.sub(a.sub(1.0, tail), 0.5))) == 1.0 - tail
    ensures a.add(0.5, a.mul(-1.0, a.sub(a.sub(1.0, tail), 0.5))) == tail
  {
    var x := a.sub(1.0, tail);
    var y := a.sub(x, 0.5);
    Add(a, 1.0, tail);
    Add(a, x, 0.5);
    Mul(a, 1.0, y);
    Mul(a, -1.0, y);
    Add(a, 0.5, a.mul(1.0, y));
    Add(a, 0.5, a.mul(-1.0, y));
  }

  /** The tail is positive and at most a hair above one half. */
  lemma TailBounds(a: ExactArithmetic, x: real)
    requires Fractions(a)
    ensures 0.0 < TailOf(a, x) < 0.5000001
  {
    var f, t := NormPdf(a, Far(x)), Point(a, x);
    PointBounds(a, x);
    DensityBounds(a, Far(x));
    PolyIs(a, t);
    PolynomialPositive(t);
    PolynomialBelow(t);
    Mul(a, f, Poly(a, t));
    var u := 1.0 / 2.5066282746310002;
    assert u * 2.5066282746310002 == 1.0;
    Product(f, Poly(a, t), u, 1.253314136);
  }

  lemma Product(f: real, p: real, u: real, v: real)
    requires 0.0 < f <= u && 0.0 < p <= v
    ensures 0.0 < f * p <= u * v
  {
    Positive(f, p);
    Positive(f, v - p);
    Positive(u - f, v);
    assert f * (v - p) == f * v - f * p && (u - f) * v == u * v - f * v;
  }

  /** The approximation is a distribution: between zero and one, at most one half to the left of zero
      and at least one half to the right, up to a hair, and symmetric but at zero. */
  lemma DistributionBounds(a: ExactArithmetic, x: real)
    requires Fractions(a)
    ensures 0.0 <= NormCdf(a, x) <= 1.0
    ensures x < 0.0 ==> NormCdf(a, x) < 0.5000001
    ensures x >= 0.0 ==> NormCdf(a, x) > 0.4999999
  {
    DistributionIs(a, x);
    TailBounds(a, x);
  }

  /** Where the distance from zero makes the point one half, the value with its digits. */
  lemma DistributionAt(a: ExactArithmetic, x: real)
    requires 0.2316419 * x == 1.0
    ensures NormCdf(a, x) == 1.0 - a.exp(-0.5 * x * x) / 2.5066282746310002 * 0.22097713890625
  {
    PointAt(a, x);
    DistributionIs(a, x);
    DensityIs(a, x);
    TailAt(a, x, NormPdf(a, x));
  }

  lemma TailAt(a: ExactArithmetic, x: real, f: real)
    requires Far(x) == x && Point(a, x) == 0.5 && f == NormPdf(a, x)
    ensures TailOf(a, x) == f * 0.22097713890625
  {
    PolyAt(a);
    Mul(a, f, Poly(a, 0.5));
  }

  lemma PointAt(a: ExactArithmetic, x: real)
    requires 0.2316419 * x == 1.0
    ensures Far(x) == x && Point(a, x) == 0.5
  {
    PointBounds(a, x);
    assert Point(a, x) * 2.0 == 1.0;
  }

  // ----- the Greeks -----

  /** The six outputs as one writes them down. */
  predicate Written(p: OptionParams, g: Greeks, phi: real, q: real, discount: real, n1: real, n2: real, f: real)
    requires p.spot * (p.vol * q) != 0.0 && q != 0.0
  {
    && g.price == phi * (p.spot * n1 - p.strike * discount * n2)
    && g.delta == phi * n1
    && g.gamma == f / (p.spot * (p.vol * q))
    && g.vega == p.spot * f * q
    && g.theta == -(p.spot * f * p.vol) / (2.0 * q) - phi * p.rate * p.strike * discount * n2
    && g.rho == phi * p.strike * p.expiry * discount * n2
  }

  /** The outputs of the scalar pricer, from the quantities they are made of. */
  lemma OutputsAre(a: ExactArithmetic, p: OptionParams, phi: real, q: real, discount: real, n1: real, n2: real, f: real)
    requires p.spot * (p.vol * q) != 0.0 && q != 0.0
    ensures Written(p, ScalarOutputs(a, p, phi, q, a.mul(p.vol, q), discount, n1, n2, f), phi, q, discount, n1, n2, f)
  {
    PriceIs(a, p.spot, p.strike, phi, discount, n1, n2);
    Mul(a, phi, n1);
    GammaIs(a, p.spot, p.vol, q, f);
    VegaIs(a, p.spot, f, q);
    ThetaIs(a, p, phi, q, discount, n2, f);
    FourProduct(a, phi, p.strike, p.expiry, discount, n2);
  }

  lemma GammaIs(a: ExactArithmetic, s: real, v: real, q: real, f: real)
    requires s * (v * q) != 0.0
    ensures a.div(f, a.mul(s, a.mul(v, q))) == f / (s * (v * q))
  {
    var w := a.mul(v, q);
    Mul(a, v, q);
    Mul(a, s, w);
    Div(a, f, a.mul(s, w));
  }

  lemma VegaIs(a: ExactArithmetic, s: real, f: real, q: real)
    ensures a.mul(a.mul(s, f), q) == s * f * q
  {
    Mul(a, s, f);
    Mul(a, a.mul(s, f), q);
  }

  lemma PriceIs(a: ExactArithmetic, s: real, k: real, phi: real, discount: real, n1: real, n2: real)
    ensures a.mul(phi, a.sub(a.mul(s, n1), a.mul(a.mul(k, discount), n2))) == phi * (s * n1 - k * discount * n2)
  {
    var kd := a.mul(k, discount);
    var x, y := a.mul(s, n1), a.mul(kd, n2);
    Mul(a, s, n1);
    Mul(a, k, discount);
    Mul(a, kd, n2);
    assert y == k * discount * n2;
    Add(a, x, y);
    Mul(a, phi, a.sub(x, y));
  }

  lemma FourProduct(a: ExactArithmetic, phi: real, x: real, y: real, z: real, n: real)
    ensures a.mul(a.mul(a.mul(a.mul(phi, x), y), z), n) == phi * x * y * z * n
  {
    var m1 := a.mul(phi, x);
    var m2 := a.mul(m1, y);
    var m3 := a.mul(m2, z);
    Mul(a, phi, x);
    Mul(a, m1, y);
    assert m2 == phi * x * y;
    Mul(a, m2, z);
    assert m3 == phi * x * y * z;
    Mul(a, m3, n);
  }

  lemma ThetaIs(a: ExactArithmetic, p: OptionParams, phi: real, q: real, discount: real, n2: real, f: real)
    requires q != 0.0
    ensures a.sub(a.div(a.neg(a.mul(a.mul(p.spot, f), p.vol)), a.mul(2.0, q)),
                  a.mul(a.mul(a.mul(a.mul(phi, p.rate), p.strike), discount), n2))
         == -(p.spot * f * p.vol) / (2.0 * q) - phi * p.rate * p.strike * discount * n2
  {
    var sf := a.mul(p.spot, f);
    var decay, carry := a.mul(sf, p.vol), a.mul(a.mul(a.mul(a.mul(phi, p.rate), p.strike), discount), n2);
    Mul(a, p.spot, f);
    Mul(a, sf, p.vol);
    assert decay == p.spot * f * p.vol;
    Add(a, decay, 0.0);
    Mul(a, 2.0, q);
    Div(a, -decay, 2.0 * q);
    FourProduct(a, phi, p.rate, p.strike, discount, n2);
    Add(a, a.div(a.neg(decay), a.mul(2.0, q)), carry);
  }

  /** The Greeks belong to one price: it satisfies the Black-Scholes equation; vega comes with gamma, and
      rho with price and delta. */
  predicate Consistent(p: OptionParams, g: Greeks) {
    && g.theta + 0.5 * p.vol * p.vol * p.spot * p.spot * g.gamma + p.rate * p.spot * g.delta - p.rate * g.price == 0.0
    && g.vega == p.vol * p.expiry * p.spot * p.spot * g.gamma
    && g.rho == p.expiry * (p.spot * g.delta - g.price)
  }

  lemma GammaTerm(s: real, v: real, q: real, f: real, gamma: real)
    requires s * (v * q) != 0.0 && q != 0.0 && gamma == f / (s * (v * q))
    ensures 0.5 * v * v * s * s * gamma == (s * f * v) / (2.0 * q)
    ensures s * f * q == v * (q * q) * s * s * gamma
  {
    assert gamma * (s * (v * q)) == f;
    var h := (s * f * v) / (2.0 * q);
    assert h * (2.0 * q) == s * f * v;
    var left := 0.5 * v * v * s * s * gamma;
    assert left * (2.0 * q) == s * v * (gamma * (s * (v * q)));
    assert (left - h) * (2.0 * q) == 0.0;
    NoZero(left - h, 2.0 * q);
    assert s * f * q == s * (gamma * (s * (v * q))) * q;
  }

  lemma NoZero(x: real, y: real)
    requires x * y == 0.0 && y != 0.0
    ensures x == 0.0
  {
  }

  lemma ConsistentWith(p: OptionParams, g: Greeks, phi: real, q: real, discount: real, n1: real, n2: real, f: real)
    requires p.spot * (p.vol * q) != 0.0 && q != 0.0 && q * q == p.expiry
    requires Written(p, g, phi, q, discount, n1, n2, f)
    ensures Consistent(p, g)
  {
    GammaTerm(p.spot, p.vol, q, f, g.gamma);
    Negated(p.spot * f * p.vol, 2.0 * q);
    RateTerms(p.rate, p.spot, p.strike, phi, discount, n1, n2);
    RateTerms(p.expiry, p.spot, p.strike, phi, discount, n1, n2);
    Reordered(phi, p.strike, p.expiry, discount, n2);
    Distributed(p.expiry, p.spot, g.delta, g.price);
    Distributed(p.rate, p.spot, g.delta, g.price);
  }

  lemma Negated(x: real, y: real)
    requires y != 0.0
    ensures -x / y == -(x / y)
  {
  }

  lemma RateTerms(r: real, s: real, k: real, phi: real, discount: real, n1: real, n2: real)
    ensures r * s * (phi * n1) - r * (phi * (s * n1 - k * discount * n2)) == phi * r * k * discount * n2
  {
  }

  lemma Reordered(phi: real, k: real, t: real, discount: real, n2: real)
    ensures phi * k * t * discount * n2 == phi * t * k * discount * n2
  {
    assert phi * k * t == phi * t * k;
  }

  lemma Distributed(t: real, s: real, delta: real, price: real)
    ensures t * (s * delta - price) == t * s * delta - t * price
  {
  }

  /** The scalar pricer's outputs are those of two values of the distribution and one of the density. */
  lemma ScalarIs(a: ExactArithmetic, p: OptionParams)
      returns (g: Greeks, n1: real, n2: real, f: real, discount: real, x: real, z: real)
    requires p.spot * (p.vol * a.sqrt(p.expiry)) != 0.0 && a.sqrt(p.expiry) != 0.0
    ensures g == PriceScalar(a, p) && n1 == NormCdf(a, x) && f == NormPdf(a, z)
    ensures Written(p, g, Phi(p.isCall), a.sqrt(p.expiry), discount, n1, n2, f)
  {
    var phi, w := Phi(p.isCall), a.mul(p.vol, a.sqrt(p.expiry));
    var d1 := D1(a, p, w);
    var d2 := a.sub(d1, w);
    discount := a.exp(a.mul(a.neg(p.rate), p.expiry));
    x, z := a.mul(phi, d1), d1;
    n1, n2, f := NormCdf(a, x), NormCdf(a, a.mul(phi, d2)), NormPdf(a, z);
    OutputsAre(a, p, phi, a.sqrt(p.expiry), discount, n1, n2, f);
    g := PriceScalar(a, p);
  }

  /** For every option with a price, a volatility and time to run. */
  lemma GreeksConsistent(a: ExactArithmetic, p: OptionParams)
    requires p.spot != 0.0 && p.vol != 0.0 && a.sqrt(p.expiry) != 0.0 && a.sqrt(p.expiry) * a.sqrt(p.expiry) == p.expiry
    ensures Consistent(p, PriceScalar(a, p))
  {
    var g := ConsistentGreeks(a, p, a.sqrt(p.expiry));
  }

  lemma ConsistentGreeks(a: ExactArithmetic, p: OptionParams, q: real) returns (g: Greeks)
    requires p.spot != 0.0 && p.vol != 0.0 && q == a.sqrt(p.expiry) && q != 0.0 && q * q == p.expiry
    ensures g == PriceScalar(a, p) && Consistent(p, g)
  {
    NotZero(p.spot, p.vol, q);
    var n1, n2, f, discount, x, z;
    g, n1, n2, f, discount, x, z := ScalarIs(a, p);
    ConsistentWith(p, g, Phi(p.isCall), q, discount, n1, n2, f);
  }

  lemma NotZero(x: real, y: real, z: real)
    requires x != 0.0 && y != 0.0 && z != 0.0
    ensures y * z != 0.0 && x * (y * z) != 0.0
  {
  }

  /** A call gains with the spot and a put loses, by at most one for one; both gain with volatility. */
  predicate Sloped(isCall: bool, g: Greeks) {
    && (isCall ==> 0.0 <= g.delta <= 1.0)
    && (!isCall ==> -1.0 <= g.delta <= 0.0)
    && g.gamma > 0.0 && g.vega > 0.0
  }

  lemma SlopedWith(p: OptionParams, g: Greeks, q: real, discount: real, n1: real, n2: real, f: real)
    requires p.spot > 0.0 && p.vol > 0.0 && q > 0.0 && p.spot * (p.vol * q) != 0.0
    requires Written(p, g, Phi(p.isCall), q, discount, n1, n2, f) && 0.0 <= n1 <= 1.0 && f > 0.0
    ensures Sloped(p.isCall, g)
  {
    Positive(p.vol, q);
    Positive(p.spot, p.vol * q);
    Quotients(f, p.spot * (p.vol * q));
    Positive(p.spot, f);
    Positive(p.spot * f, q);
  }

  lemma DeltaBounds(a: ExactArithmetic, p: OptionParams)
    requires Fractions(a) && p.spot > 0.0 && p.vol > 0.0 && a.sqrt(p.expiry) > 0.0
    ensures Sloped(p.isCall, PriceScalar(a, p))
  {
    NotZero(p.spot, p.vol, a.sqrt(p.expiry));
    var g, n1, n2, f, discount, x, z := ScalarIs(a, p);
    DistributionBounds(a, x);
    DensityBounds(a, z);
    SlopedWith(p, g, a.sqrt(p.expiry), discount, n1, n2, f);
  }

  // ----- the two densities -----

  /** What exponential and logarithm are. */
  predicate PowerAt(a: Arithmetic, x: real, y: real) {
    a.exp(x + y) == a.exp(x) * a.exp(y) && (x > 0.0 ==> a.exp(a.ln(x)) == x)
  }

  ghost predicate Powers(a: Arithmetic) {
    forall x, y :: PowerAt(a, x, y)
  }

  lemma ExpZero(a: Arithmetic)
    requires Powers(a)
    ensures a.exp(0.0) == 1.0
  {
    assert PowerAt(a, 1.0, 0.0) && PowerAt(a, a.ln(1.0), 0.0);
    assert a.ln(1.0) + 0.0 == a.ln(1.0);
  }

  /** d1 is where it is by its definition. */
  lemma D1Is(a: ExactArithmetic, p: OptionParams, w: real)
    requires p.strike != 0.0 && w != 0.0
    ensures D1(a, p, w) * w == a.ln(p.spot / p.strike) + (p.rate + 0.5 * p.vol * p.vol) * p.expiry
  {
    var half := a.mul(0.5, p.vol);
    var variance := a.mul(half, p.vol);
    var drift := a.add(p.rate, variance);
    var grown := a.mul(drift, p.expiry);
    Div(a, p.spot, p.strike);
    Mul(a, 0.5, p.vol);
    Mul(a, half, p.vol);
    assert variance == 0.5 * p.vol * p.vol;
    Add(a, p.rate, variance);
    Mul(a, drift, p.expiry);
    assert grown == (p.rate + 0.5 * p.vol * p.vol) * p.expiry;
    var l := a.ln(a.div(p.spot, p.strike));
    Add(a, l, grown);
    var x := a.add(l, grown);
    Div(a, x, w);
    assert x / w * w == x;
  }

  lemma Exponents(d1: real, d2: real, w: real, l: real, r: real, v: real, t: real)
    requires d2 == d1 - w && d1 * w == l + (r + 0.5 * v * v) * t && w * w == v * v * t
    ensures -0.5 * d2 * d2 == -0.5 * d1 * d1 + (l + r * t)
  {
    assert d2 * d2 == d1 * d1 - 2.0 * (d1 * w) + w * w;
    assert (r + 0.5 * v * v) * t == r * t + 0.5 * (v * v * t);
  }

  lemma Squared(v: real, q: real, w: real, t: real)
    requires w == v * q && q * q == t
    ensures w * w == v * v * t
  {
    assert w * w == v * v * (q * q);
  }

  /** The weights of the two densities balance, spot against discounted strike; it is what makes delta the
      derivative of the price, and it fixes d1, d2 and the discount factor together. */
  lemma DensitiesBalance(a: ExactArithmetic, p: OptionParams, d1: real, d2: real, discount: real)
    requires Powers(a) && p.spot > 0.0 && p.strike > 0.0 && p.vol != 0.0
    requires a.sqrt(p.expiry) != 0.0 && a.sqrt(p.expiry) * a.sqrt(p.expiry) == p.expiry
    requires Terms(a, p, d1, d2, discount)
    ensures p.spot * NormPdf(a, d1) == p.strike * discount * NormPdf(a, d2)
  {
    var l, m := a.ln(p.spot / p.strike), p.rate * p.expiry;
    var e1, e2, carry := -0.5 * d1 * d1, -0.5 * d2 * d2, a.mul(a.neg(p.rate), p.expiry);
    HalfSquares(a, p, d1, d2, l);
    DiscountIs(a, p.rate, p.expiry);
    Weights(a, p.spot, p.strike, e1, e2, m, carry);
    DensityIs(a, d1);
    DensityIs(a, d2);
    Scaled(p.spot, a.exp(e1), p.strike * discount, a.exp(e2), 2.5066282746310002);
  }

  /** How far apart the exponents of the two densities are. */
  lemma HalfSquares(a: ExactArithmetic, p: OptionParams, d1: real, d2: real, l: real)
    requires p.strike != 0.0 && p.vol != 0.0 && l == a.ln(p.spot / p.strike)
    requires a.sqrt(p.expiry) != 0.0 && a.sqrt(p.expiry) * a.sqrt(p.expiry) == p.expiry
    requires d1 == D1(a, p, a.mul(p.vol, a.sqrt(p.expiry))) && d2 == a.sub(d1, a.mul(p.vol, a.sqrt(p.expiry)))
    ensures -0.5 * d2 * d2 == -0.5 * d1 * d1 + (l + p.rate * p.expiry)
  {
    var q := a.sqrt(p.expiry);
    var w := a.mul(p.vol, q);
    Mul(a, p.vol, q);
    Add(a, d1, w);
    NotZero(1.0, p.vol, q);
    Squared(p.vol, q, w, p.expiry);
    D1Is(a, p, w);
    Exponents(d1, d2, w, l, p.rate, p.vol, p.expiry);
  }

  lemma DiscountIs(a: ExactArithmetic, r: real, t: real)
    ensures a.mul(a.neg(r), t) == -(r * t)
  {
    Add(a, r, 0.0);
    Mul(a, a.neg(r), t);
    assert a.neg(r) * t == -(r * t);
  }

  lemma Weights(a: Arithmetic, s: real, k: real, e1: real, e2: real, m: real, carry: real)
    requires Powers(a) && s > 0.0 && k > 0.0 && carry == -m && e2 == e1 + (a.ln(s / k) + m)
    ensures s * a.exp(e1) == k * a.exp(carry) * a.exp(e2)
  {
    var l := a.ln(s / k);
    ExpZero(a);
    assert PowerAt(a, e1, l + m) && PowerAt(a, l, m) && PowerAt(a, carry, m);
    Quotients(s, k);
    assert PowerAt(a, s / k, 0.0) && a.exp(l) == s / k;
    assert carry + m == 0.0 && a.exp(carry) * a.exp(m) == 1.0;
    assert k * (s / k) == s;
    assert a.exp(e2) == a.exp(e1) * (s / k * a.exp(m));
    Rearranged(k, a.exp(carry), a.exp(e1), s / k, a.exp(m));
  }

  lemma Rearranged(k: real, x: real, e: real, y: real, z: real)
    requires x * z == 1.0
    ensures k * x * (e * (y * z)) == k * y * e
  {
    assert k * x * (e * (y * z)) == k * y * e * (x * z);
  }

  lemma Scaled(s: real, x: real, k: real, y: real, c: real)
    requires c != 0.0 && s * x == k * y
    ensures s * (x / c) == k * (y / c)
  {
    assert s * (x / c) == s * x / c && k * (y / c) == k * y / c;
  }

  // ----- the formula -----

  lemma Cancelled(x: real, y: real, w: real)
    requires x * w == y * w && w != 0.0
    ensures x == y
  {
    assert (x - y) * w == 0.0;
    NoZero(x - y, w);
  }

  /** The scalar price, delta and gamma by the formula: d1 and d2 from spot, strike, rate, volatility and
      time, the distribution at each of them with the sign of the option's kind. */
  lemma FormulaIs(a: ExactArithmetic, p: OptionParams, q: real, d1: real, d2: real, e1: real, e2: real, discount: real)
    requires p.strike != 0.0 && q == a.sqrt(p.expiry) && q != 0.0 && p.spot * (p.vol * q) != 0.0
    requires d1 * (p.vol * q) == a.ln(p.spot / p.strike) + (p.rate + 0.5 * p.vol * p.vol) * p.expiry
    requires d2 == d1 - p.vol * q && discount == a.exp(a.mul(a.neg(p.rate), p.expiry))
    requires e1 == (if p.isCall then d1 else -d1) && e2 == (if p.isCall then d2 else -d2)
    ensures Written(p, PriceScalar(a, p), if p.isCall then 1.0 else -1.0, q, discount,
                    NormCdf(a, e1), NormCdf(a, e2), NormPdf(a, d1))
  {
    var phi, w := Phi(p.isCall), a.mul(p.vol, q);
    D1Unique(a, p, q, d1);
    Signed(a, d1);
    Signed(a, d2);
    FormulaWith(a, p, phi, q, w, d1, d2, e1, e2, discount);
  }

  lemma FormulaWith(a: ExactArithmetic, p: OptionParams, phi: real, q: real, w: real, d1: real, d2: real, e1: real, e2: real,
                    discount: real)
    requires phi == Phi(p.isCall) && q == a.sqrt(p.expiry) && w == a.mul(p.vol, q)
    requires d1 == D1(a, p, w) && d2 == a.sub(d1, w) && e1 == a.mul(phi, d1) && e2 == a.mul(phi, d2)
    requires discount == a.exp(a.mul(a.neg(p.rate), p.expiry)) && q != 0.0 && p.spot * (p.vol * q) != 0.0
    ensures Written(p, PriceScalar(a, p), phi, q, discount, NormCdf(a, e1), NormCdf(a, e2), NormPdf(a, d1))
  {
    OutputsAre(a, p, phi, q, discount, NormCdf(a, e1), NormCdf(a, e2), NormPdf(a, d1));
    ScalarOf(a, p, phi, q, w, d1, d2, e1, e2, discount);
  }

  lemma D1Unique(a: ExactArithmetic, p: OptionParams, q: real, d1: real)
    requires p.strike != 0.0 && p.spot * (p.vol * q) != 0.0
    requires d1 * (p.vol * q) == a.ln(p.spot / p.strike) + (p.rate + 0.5 * p.vol * p.vol) * p.expiry
    ensures D1(a, p, a.mul(p.vol, q)) == d1 && a.sub(d1, a.mul(p.vol, q)) == d1 - p.vol * q
  {
    var w := a.mul(p.vol, q);
    Mul(a, p.vol, q);
    D1Is(a, p, w);
    Cancelled(D1(a, p, w), d1, w);
    Add(a, d1, w);
  }

  lemma ScalarOf(a: Arithmetic, p: OptionParams, phi: real, q: real, w: real, d1: real, d2: real, e1: real, e2: real,
                 discount: real)
    requires phi == Phi(p.isCall) && q == a.sqrt(p.expiry) && w == a.mul(p.vol, q)
    requires d1 == D1(a, p, w) && d2 == a.sub(d1, w) && e1 == a.mul(phi, d1) && e2 == a.mul(phi, d2)
    requires discount == a.exp(a.mul(a.neg(p.rate), p.expiry))
    ensures PriceScalar(a, p) == ScalarOutputs(a, p, phi, q, w, discount, NormCdf(a, e1), NormCdf(a, e2), NormPdf(a, d1))
  {
  }
}
