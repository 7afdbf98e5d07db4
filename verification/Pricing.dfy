/** The batch option pricer (risk/src/pricing.rs): a batch is transposed into columns, padded to a
    multiple of four and priced four lanes at a time. The arithmetic is a parameter: lanes and padding
    are proved independent for any arithmetic, and a lane gives what the scalar pricer gives in every
    arithmetic with four named identities, exact arithmetic among them. */
module Pricing {

  datatype OptionParams = OptionParams(spot: real, strike: real, rate: real, vol: real, expiry: real, isCall: bool)

  datatype Greeks = Greeks(price: real, delta: real, gamma: real, vega: real, theta: real, rho: real)

  /** The machine's operations on one number. */
  datatype Arithmetic = Arithmetic(
    add: (real, real) -> real, sub: (real, real) -> real, mul: (real, real) -> real, div: (real, real) -> real,
    neg: real -> real, exp: real -> real, ln: real -> real, sqrt: real -> real, abs: real -> real,
    lt: (real, real) -> bool)

  const SQRT_2PI: real := 2.5066282746310002
  const P: real := 0.2316419
  const B1: real := 0.319381530
  const B2: real := -0.356563782
  const B3: real := 1.781477937
  const B4: real := -1.821255978
  const B5: real := 1.330274429

  function Phi(isCall: bool): real {
    if isCall then 1.0 else -1.0
  }

  // ----- four lanes -----

  type LaneIndex = i: nat | i < 4

  datatype Lanes<T> = Lanes(l0: T, l1: T, l2: T, l3: T) {
    function At(i: LaneIndex): T {
      if i == 0 then l0 else if i == 1 then l1 else if i == 2 then l2 else l3
    }
  }

  type F64x4 = Lanes<real>

  function Splat(x: real): F64x4 {
    Lanes(x, x, x, x)
  }

  function Each(f: real -> real, v: F64x4): F64x4 {
    Lanes(f(v.l0), f(v.l1), f(v.l2), f(v.l3))
  }

  function Both(f: (real, real) -> real, v: F64x4, w: F64x4): F64x4 {
    Lanes(f(v.l0, w.l0), f(v.l1, w.l1), f(v.l2, w.l2), f(v.l3, w.l3))
  }

  function Less(a: Arithmetic, v: F64x4, w: F64x4): Lanes<bool> {
    Lanes(a.lt(v.l0, w.l0), a.lt(v.l1, w.l1), a.lt(v.l2, w.l2), a.lt(v.l3, w.l3))
  }

  function Blend(mask: Lanes<bool>, v: F64x4, w: F64x4): F64x4 {
    Lanes(if mask.l0 then v.l0 else w.l0, if mask.l1 then v.l1 else w.l1,
          if mask.l2 then v.l2 else w.l2, if mask.l3 then v.l3 else w.l3)
  }

  function PdfSimd(a: Arithmetic, x: F64x4): F64x4 {
    Both(a.mul, Each(a.exp, Both(a.mul, Both(a.mul, x, x), Splat(-0.5))), Splat(a.div(1.0, SQRT_2PI)))
  }

  function PolySimd(a: Arithmetic, t: F64x4): F64x4 {
    Both(a.mul, t, Both(a.add, Splat(B1),
      Both(a.mul, t, Both(a.add, Splat(B2),
        Both(a.mul, t, Both(a.add, Splat(B3),
          Both(a.mul, t, Both(a.add, Splat(B4), Both(a.mul, t, Splat(B5))))))))))
  }

  function CdfSimd(a: Arithmetic, x: F64x4): F64x4 {
    var sign := Blend(Less(a, x, Splat(0.0)), Splat(-1.0), Splat(1.0));
    var xAbs := Each(a.abs, x);
    var t := Both(a.div, Splat(1.0), Both(a.add, Splat(1.0), Both(a.mul, Splat(P), xAbs)));
    var cdfAbs := Both(a.sub, Splat(1.0), Both(a.mul, PdfSimd(a, xAbs), PolySimd(a, t)));
    Both(a.add, Splat(0.5), Both(a.mul, sign, Both(a.sub, cdfAbs, Splat(0.5))))
  }

  datatype Columns = Columns(price: F64x4, delta: F64x4, gamma: F64x4, vega: F64x4, theta: F64x4, rho: F64x4) {
    function At(i: LaneIndex): Greeks {
      Greeks(price.At(i), delta.At(i), gamma.At(i), vega.At(i), theta.At(i), rho.At(i))
    }
  }

  function D1Simd(a: Arithmetic, spot: F64x4, strike: F64x4, rate: F64x4, vol: F64x4, t: F64x4, volSqrtT: F64x4): F64x4 {
    Both(a.div,
      Both(a.add, Each(a.ln, Both(a.div, spot, strike)),
        Both(a.mul, Both(a.add, rate, Both(a.mul, Both(a.mul, Splat(0.5), vol), vol)), t)),
      volSqrtT)
  }

  /** price_lane_simd */
  function PriceLaneSimd(a: Arithmetic, spot: F64x4, strike: F64x4, rate: F64x4, vol: F64x4, t: F64x4,
          phi: F64x4): Columns {
    var sqrtT := Each(a.sqrt, t);
    var volSqrtT := Both(a.mul, vol, sqrtT);
    var d1 := D1Simd(a, spot, strike, rate, vol, t, volSqrtT);
    var d2 := Both(a.sub, d1, volSqrtT);
    var discount := Each(a.exp, Both(a.mul, Both(a.mul, rate, t), Splat(-1.0)));
    var n1, n2 := CdfSimd(a, Both(a.mul, phi, d1)), CdfSimd(a, Both(a.mul, phi, d2));
    var pdf := PdfSimd(a, d1);
    Columns(
      Both(a.mul, phi, Both(a.sub, Both(a.mul, spot, n1), Both(a.mul, Both(a.mul, strike, discount), n2))),
      Both(a.mul, phi, n1),
      Both(a.div, pdf, Both(a.mul, spot, volSqrtT)),
      Both(a.mul, Both(a.mul, spot, pdf), sqrtT),
      Both(a.sub,
        Both(a.mul, Both(a.div, Both(a.mul, Both(a.mul, spot, pdf), vol), Both(a.mul, Splat(2.0), sqrtT)), Splat(-1.0)),
        Both(a.mul, Both(a.mul, Both(a.mul, Both(a.mul, phi, rate), strike), discount), n2)),
      Both(a.mul, Both(a.mul, Both(a.mul, Both(a.mul, phi, strike), t), discount), n2))
  }

  // ----- one lane -----

  function Pdf(a: Arithmetic, x: real): real {
    a.mul(a.exp(a.mul(a.mul(x, x), -0.5)), a.div(1.0, SQRT_2PI))
  }

  function Poly(a: Arithmetic, t: real): real {
    a.mul(t, a.add(B1, a.mul(t, a.add(B2, a.mul(t, a.add(B3, a.mul(t, a.add(B4, a.mul(t, B5)))))))))
  }

  function Cdf(a: Arithmetic, x: real): real {
    var sign := if a.lt(x, 0.0) then -1.0 else 1.0;
    var xAbs := a.abs(x);
    var t := a.div(1.0, a.add(1.0, a.mul(P, xAbs)));
    var cdfAbs := a.sub(1.0, a.mul(Pdf(a, xAbs), Poly(a, t)));
    a.add(0.5, a.mul(sign, a.sub(cdfAbs, 0.5)))
  }

  function D1(a: Arithmetic, p: OptionParams, volSqrtT: real): real {
    a.div(a.add(a.ln(a.div(p.spot, p.strike)),
                a.mul(a.add(p.rate, a.mul(a.mul(0.5, p.vol), p.vol)), p.expiry)), volSqrtT)
  }

  /** The six outputs from the quantities they are made of, as a lane computes them. */
  function LaneOutputs(a: Arithmetic, p: OptionParams, phi: real, sqrtT: real, volSqrtT: real, discount: real,
          n1: real, n2: real, pdf: real): Greeks {
    Greeks(
      a.mul(phi, a.sub(a.mul(p.spot, n1), a.mul(a.mul(p.strike, discount), n2))),
      a.mul(phi, n1),
      a.div(pdf, a.mul(p.spot, volSqrtT)),
      a.mul(a.mul(p.spot, pdf), sqrtT),
      a.sub(a.mul(a.div(a.mul(a.mul(p.spot, pdf), p.vol), a.mul(2.0, sqrtT)), -1.0),
            a.mul(a.mul(a.mul(a.mul(phi, p.rate), p.strike), discount), n2)),
      a.mul(a.mul(a.mul(a.mul(phi, p.strike), p.expiry), discount), n2))
  }

  /** What one lane computes for one option. */
  function PriceLane(a: Arithmetic, p: OptionParams): Greeks {
    var phi := Phi(p.isCall);
    var sqrtT := a.sqrt(p.expiry);
    var volSqrtT := a.mul(p.vol, sqrtT);
    var d1 := D1(a, p, volSqrtT);
    var d2 := a.sub(d1, volSqrtT);
    var discount := a.exp(a.mul(a.mul(p.rate, p.expiry), -1.0));
    var n1, n2 := Cdf(a, a.mul(phi, d1)), Cdf(a, a.mul(phi, d2));
    LaneOutputs(a, p, phi, sqrtT, volSqrtT, discount, n1, n2, Pdf(a, d1))
  }

  // ----- lanes are independent -----

  lemma PdfLane(a: Arithmetic, x: F64x4, i: LaneIndex)
    ensures PdfSimd(a, x).At(i) == Pdf(a, x.At(i))
  {
  }

  lemma PolyLane(a: Arithmetic, t: F64x4, i: LaneIndex)
    ensures PolySimd(a, t).At(i) == Poly(a, t.At(i))
  {
  }

  lemma CdfLane(a: Arithmetic, x: F64x4, i: LaneIndex)
    ensures CdfSimd(a, x).At(i) == Cdf(a, x.At(i))
  {
    var xAbs := Each(a.abs, x);
    var t := Both(a.div, Splat(1.0), Both(a.add, Splat(1.0), Both(a.mul, Splat(P), xAbs)));
    PdfLane(a, xAbs, i);
    PolyLane(a, t, i);
  }

  /** Lane i of a lane group depends on lane i of the inputs only, whatever the arithmetic. */
  lemma LanesIndependent(a: Arithmetic, spot: F64x4, strike: F64x4, rate: F64x4, vol: F64x4, t: F64x4, phi: F64x4,
          i: LaneIndex, p: OptionParams)
    requires p == OptionParams(spot.At(i), strike.At(i), rate.At(i), vol.At(i), t.At(i), p.isCall) && phi.At(i) == Phi(p.isCall)
    ensures PriceLaneSimd(a, spot, strike, rate, vol, t, phi).At(i) == PriceLane(a, p)
  {
    var sqrtT := Each(a.sqrt, t);
    var volSqrtT := Both(a.mul, vol, sqrtT);
    var d1 := D1Simd(a, spot, strike, rate, vol, t, volSqrtT);
    var d2 := Both(a.sub, d1, volSqrtT);
    CdfLane(a, Both(a.mul, phi, d1), i);
    CdfLane(a, Both(a.mul, phi, d2), i);
    PdfLane(a, d1, i);
    assert d1.At(i) == D1(a, p, volSqrtT.At(i));
  }

  // ----- the scalar pricer -----

  /** norm_pdf */
  function NormPdf(a: Arithmetic, x: real): real {
    a.div(a.exp(a.mul(a.mul(-0.5, x), x)), SQRT_2PI)
  }

  /** norm_cdf */
  function NormCdf(a: Arithmetic, x: real): real {
    var sign := if a.lt(x, 0.0) then -1.0 else 1.0;
    var xAbs := a.abs(x);
    var t := a.div(1.0, a.add(1.0, a.mul(P, xAbs)));
    var cdfAbs := a.sub(1.0, a.mul(NormPdf(a, xAbs), Poly(a, t)));
    a.add(0.5, a.mul(sign, a.sub(cdfAbs, 0.5)))
  }

  /** The six outputs as the scalar pricer computes them. */
  function ScalarOutputs(a: Arithmetic, p: OptionParams, phi: real, sqrtT: real, volSqrtT: real, discount: real,
          n1: real, n2: real, pdf: real): Greeks {
    Greeks(
      a.mul(phi, a.sub(a.mul(p.spot, n1), a.mul(a.mul(p.strike, discount), n2))),
      a.mul(phi, n1),
      a.div(pdf, a.mul(p.spot, volSqrtT)),
      a.mul(a.mul(p.spot, pdf), sqrtT),
      a.sub(a.div(a.neg(a.mul(a.mul(p.spot, pdf), p.vol)), a.mul(2.0, sqrtT)),
            a.mul(a.mul(a.mul(a.mul(phi, p.rate), p.strike), discount), n2)),
      a.mul(a.mul(a.mul(a.mul(phi, p.strike), p.expiry), discount), n2))
  }

  /** price_scalar */
  function PriceScalar(a: Arithmetic, p: OptionParams): Greeks {
    var phi := Phi(p.isCall);
    var sqrtT := a.sqrt(p.expiry);
    var volSqrtT := a.mul(p.vol, sqrtT);
    var d1 := D1(a, p, volSqrtT);
    var d2 := a.sub(d1, volSqrtT);
    var discount := a.exp(a.mul(a.neg(p.rate), p.expiry));
    var n1, n2 := NormCdf(a, a.mul(phi, d1)), NormCdf(a, a.mul(phi, d2));
    ScalarOutputs(a, p, phi, sqrtT, volSqrtT, discount, n1, n2, NormPdf(a, d1))
  }

  /** The identities by which the vector formulas differ in form from the scalar ones. */
  predicate LawfulAt(a: Arithmetic, x: real, y: real) {
    && a.mul(a.mul(x, x), -0.5) == a.mul(a.mul(-0.5, x), x)
    && a.mul(x, a.div(1.0, SQRT_2PI)) == a.div(x, SQRT_2PI)
    && a.mul(a.mul(x, y), -1.0) == a.mul(a.neg(x), y)
    && a.mul(a.div(x, y), -1.0) == a.div(a.neg(x), y)
  }

  ghost predicate Lawful(a: Arithmetic) {
    forall x, y :: LawfulAt(a, x, y)
  }

  /** Real arithmetic at two operands. */
  predicate LinearAt(a: Arithmetic, x: real, y: real) {
    && a.add(x, y) == x + y
    && a.sub(x, y) == x - y
    && a.neg(x) == -x
    && a.abs(x) == (if x < 0.0 then -x else x)
    && a.lt(x, y) == (x < y)
  }

  predicate ProductAt(a: Arithmetic, x: real, y: real) {
    a.mul(x, y) == x * y
  }

  /** A quotient by zero is left open, except that it keeps the sign rule. */
  predicate QuotientAt(a: Arithmetic, x: real, y: real) {
    if y == 0.0 then a.div(-x, y) == -a.div(x, y) else a.div(x, y) == x / y
  }

  /** Real arithmetic; the transcendental functions are left open. */
  ghost predicate Exact(a: Arithmetic) {
    && (forall x, y :: LinearAt(a, x, y))
    && (forall x, y :: ProductAt(a, x, y))
    && (forall x, y :: QuotientAt(a, x, y))
  }

  type ExactArithmetic = a: Arithmetic | Exact(a) ghost witness Reals()

  /** One such arithmetic, with the transcendental values that the failing inputs below need. */
  ghost function Reals(): (a: Arithmetic)
    ensures Standard(a)
  {
    Arithmetic((x, y) => x + y, (x, y) => x - y, (x, y) => x * y, (x, y) => if y == 0.0 then 0.0 else x / y,
      x => -x, x => 1.0 + x, x => x - 1.0, x => x, x => if x < 0.0 then -x else x, (x, y) => x < y)
  }

  lemma ProductLaws(a: ExactArithmetic, x: real, y: real)
    ensures a.mul(a.mul(x, x), -0.5) == a.mul(a.mul(-0.5, x), x)
    ensures a.mul(a.mul(x, y), -1.0) == a.mul(a.neg(x), y)
  {
    var s, p := x * x, x * y;
    assert ProductAt(a, x, x) && ProductAt(a, s, -0.5) && ProductAt(a, -0.5, x) && ProductAt(a, -0.5 * x, x);
    assert s * -0.5 == -0.5 * x * x;
    assert LinearAt(a, x, y) && ProductAt(a, x, y) && ProductAt(a, p, -1.0) && ProductAt(a, -x, y);
    assert p * -1.0 == -x * y;
  }

  lemma QuotientLaws(a: ExactArithmetic, x: real, y: real)
    ensures a.mul(x, a.div(1.0, SQRT_2PI)) == a.div(x, SQRT_2PI)
    ensures a.mul(a.div(x, y), -1.0) == a.div(a.neg(x), y)
  {
    assert QuotientAt(a, 1.0, SQRT_2PI) && ProductAt(a, x, 1.0 / SQRT_2PI) && QuotientAt(a, x, SQRT_2PI);
    var q := a.div(x, y);
    assert LinearAt(a, x, y) && QuotientAt(a, x, y) && QuotientAt(a, -x, y) && ProductAt(a, q, -1.0);
    if y != 0.0 {
      assert -x / y == -(x / y);
    }
  }

  lemma ExactIsLawful(a: ExactArithmetic)
    ensures Lawful(a)
  {
    forall x, y ensures LawfulAt(a, x, y) {
      ProductLaws(a, x, y);
      QuotientLaws(a, x, y);
    }
  }

  lemma PdfIsScalar(a: Arithmetic, x: real)
    requires Lawful(a)
    ensures Pdf(a, x) == NormPdf(a, x)
  {
    assert LawfulAt(a, x, x);
    assert LawfulAt(a, a.exp(a.mul(a.mul(x, x), -0.5)), x);
  }

  lemma CdfIsScalar(a: Arithmetic, x: real)
    requires Lawful(a)
    ensures Cdf(a, x) == NormCdf(a, x)
  {
    PdfIsScalar(a, a.abs(x));
  }

  lemma DiscountIsScalar(a: Arithmetic, r: real, t: real)
    requires Lawful(a)
    ensures a.exp(a.mul(a.mul(r, t), -1.0)) == a.exp(a.mul(a.neg(r), t))
  {
    assert LawfulAt(a, r, t);
  }

  lemma OutputsAreScalar(a: Arithmetic, p: OptionParams, phi: real, sqrtT: real, volSqrtT: real, discount: real,
          n1: real, n2: real, pdf: real)
    requires Lawful(a)
    ensures LaneOutputs(a, p, phi, sqrtT, volSqrtT, discount, n1, n2, pdf)
         == ScalarOutputs(a, p, phi, sqrtT, volSqrtT, discount, n1, n2, pdf)
  {
    assert LawfulAt(a, a.mul(a.mul(p.spot, pdf), p.vol), a.mul(2.0, sqrtT));
  }

  /** A lane computes the scalar pricer. */
  lemma LaneIsScalar(a: Arithmetic, p: OptionParams)
    requires Lawful(a)
    ensures PriceLane(a, p) == PriceScalar(a, p)
  {
    var phi, sqrtT := Phi(p.isCall), a.sqrt(p.expiry);
    var volSqrtT := a.mul(p.vol, sqrtT);
    var d1 := D1(a, p, volSqrtT);
    var d2 := a.sub(d1, volSqrtT);
    CdfIsScalar(a, a.mul(phi, d1));
    CdfIsScalar(a, a.mul(phi, d2));
    PdfIsScalar(a, d1);
    DiscountIsScalar(a, p.rate, p.expiry);
    OutputsAreScalar(a, p, phi, sqrtT, volSqrtT, a.exp(a.mul(a.neg(p.rate), p.expiry)),
                     NormCdf(a, a.mul(phi, d1)), NormCdf(a, a.mul(phi, d2)), NormPdf(a, d1));
  }

  // ----- put-call parity -----

  /** How far the approximated distribution is from symmetric at x: it is symmetric except at zero. */
  function Skew(a: Arithmetic, x: real): real {
    if x == 0.0 then 2.0 * NormCdf(a, 0.0) - 1.0 else 0.0
  }

  lemma CdfReflects(a: ExactArithmetic, x: real)
    ensures NormCdf(a, x) + NormCdf(a, -x) == 1.0 + Skew(a, x)
  {
    assert LinearAt(a, x, 0.0) && LinearAt(a, -x, 0.0);
    if x == 0.0 {
      assert -x == 0.0;
    } else {
      var xAbs := a.abs(x);
      assert a.abs(-x) == xAbs;
      var t := a.div(1.0, a.add(1.0, a.mul(P, xAbs)));
      var centred := a.sub(a.sub(1.0, a.mul(NormPdf(a, xAbs), Poly(a, t))), 0.5);
      assert ProductAt(a, 1.0, centred) && ProductAt(a, -1.0, centred);
      assert LinearAt(a, 0.5, centred) && LinearAt(a, 0.5, -centred);
    }
  }

  /** The price from the two probabilities. */
  function Net(a: Arithmetic, p: OptionParams, phi: real, n1: real, n2: real, discount: real): real {
    a.mul(phi, a.sub(a.mul(p.spot, n1), a.mul(a.mul(p.strike, discount), n2)))
  }

  lemma NetIs(a: ExactArithmetic, p: OptionParams, n1: real, n2: real, discount: real)
    ensures var k := a.mul(p.strike, discount);
      Net(a, p, 1.0, n1, n2, discount) == p.spot * n1 - k * n2 && Net(a, p, -1.0, n1, n2, discount) == k * n2 - p.spot * n1
  {
    var k := a.mul(p.strike, discount);
    var s, d := a.mul(p.spot, n1), a.mul(k, n2);
    assert ProductAt(a, p.spot, n1) && ProductAt(a, k, n2);
    var net := a.sub(s, d);
    assert LinearAt(a, s, d);
    assert ProductAt(a, 1.0, net) && ProductAt(a, -1.0, net);
  }

  lemma ParityAlgebra(s: real, k: real, n1: real, m1: real, n2: real, m2: real, g1: real, g2: real)
    requires n1 + m1 == 1.0 + g1 && n2 + m2 == 1.0 + g2
    ensures (s * n1 - k * n2) - (k * m2 - s * m1) == s - k + s * g1 - k * g2
  {
    assert s * n1 + s * m1 == s * (n1 + m1) == s + s * g1;
    assert k * n2 + k * m2 == k * (n2 + m2) == k + k * g2;
  }

  lemma Signed(a: ExactArithmetic, d: real)
    ensures a.mul(1.0, d) == d && a.mul(-1.0, d) == -d
  {
    assert ProductAt(a, 1.0, d) && ProductAt(a, -1.0, d);
  }

  /** d1, d2 and the discount factor as the scalar pricer computes them. */
  predicate Terms(a: Arithmetic, p: OptionParams, d1: real, d2: real, discount: real) {
    && d1 == D1(a, p, a.mul(p.vol, a.sqrt(p.expiry)))
    && d2 == a.sub(d1, a.mul(p.vol, a.sqrt(p.expiry)))
    && discount == a.exp(a.mul(a.neg(p.rate), p.expiry))
  }

  /** The scalar price, from d1 and d2 with the sign of the option's kind. */
  lemma ScalarPrice(a: Arithmetic, p: OptionParams, d1: real, d2: real, discount: real, phi: real, e1: real, e2: real)
    requires Terms(a, p, d1, d2, discount)
    requires phi == Phi(p.isCall) && e1 == a.mul(phi, d1) && e2 == a.mul(phi, d2)
    ensures PriceScalar(a, p).price == Net(a, p, phi, NormCdf(a, e1), NormCdf(a, e2), discount)
  {
  }

  /** What a call less a put comes to once the probabilities are known. */
  lemma Difference(a: ExactArithmetic, p: OptionParams, discount: real, n1: real, m1: real, n2: real, m2: real, g1: real,
          g2: real)
    requires n1 + m1 == 1.0 + g1 && n2 + m2 == 1.0 + g2
    ensures var k := a.mul(p.strike, discount);
      Net(a, p, 1.0, n1, n2, discount) - Net(a, p.(isCall := false), -1.0, m1, m2, discount)
        == p.spot - k + a.mul(p.spot, g1) - a.mul(k, g2)
  {
    assert ProductAt(a, p.spot, g1) && ProductAt(a, a.mul(p.strike, discount), g2);
    NetIs(a, p, n1, n2, discount);
    NetIs(a, p.(isCall := false), m1, m2, discount);
    ParityAlgebra(p.spot, a.mul(p.strike, discount), n1, m1, n2, m2, g1, g2);
  }

  lemma CallPrice(a: ExactArithmetic, p: OptionParams, d1: real, d2: real, discount: real)
    requires p.isCall && Terms(a, p, d1, d2, discount)
    ensures PriceScalar(a, p).price == Net(a, p, 1.0, NormCdf(a, d1), NormCdf(a, d2), discount)
  {
    Signed(a, d1);
    Signed(a, d2);
    ScalarPrice(a, p, d1, d2, discount, 1.0, d1, d2);
  }

  lemma PutPrice(a: ExactArithmetic, p: OptionParams, d1: real, d2: real, discount: real)
    requires !p.isCall && Terms(a, p, d1, d2, discount)
    ensures PriceScalar(a, p).price == Net(a, p, -1.0, NormCdf(a, -d1), NormCdf(a, -d2), discount)
  {
    Signed(a, d1);
    Signed(a, d2);
    var e1, e2 := a.mul(-1.0, d1), a.mul(-1.0, d2);
    ScalarPrice(a, p, d1, d2, discount, -1.0, e1, e2);
  }

  /** Put-call parity in exact arithmetic: a call less the put on the same terms is
      spot - strike * discount whenever neither d1 nor d2 is zero, and the right-hand side says by how
      much it is off when one is. */
  lemma PutCallParity(a: ExactArithmetic, call: OptionParams, put: OptionParams, d1: real, d2: real, discount: real)
    requires call.isCall && put == call.(isCall := false)
    requires Terms(a, call, d1, d2, discount)
    ensures var k := a.mul(call.strike, discount);
      PriceScalar(a, call).price - PriceScalar(a, put).price
        == call.spot - k + a.mul(call.spot, Skew(a, d1)) - a.mul(k, Skew(a, d2))
  {
    CallPrice(a, call, d1, d2, discount);
    PutPrice(a, put, d1, d2, discount);
    CdfReflects(a, d1);
    CdfReflects(a, d2);
    Difference(a, call, discount, NormCdf(a, d1), NormCdf(a, -d1), NormCdf(a, d2), NormCdf(a, -d2), Skew(a, d1), Skew(a, d2));
  }

  // ----- when parity fails -----

  /** Exact arithmetic with the values of the transcendental functions that the failing inputs need. */
  ghost predicate Standard(a: Arithmetic) {
    Exact(a) && a.exp(0.0) == 1.0 && a.ln(1.0) == 0.0 && a.sqrt(1.0) == 1.0
  }

  lemma PolyAtOne(a: ExactArithmetic)
    ensures Poly(a, 1.0) == B1 + B2 + B3 + B4 + B5
  {
    assert ProductAt(a, 1.0, B5) && LinearAt(a, B4, B5);
    assert ProductAt(a, 1.0, B4 + B5) && LinearAt(a, B3, B4 + B5);
    assert ProductAt(a, 1.0, B3 + B4 + B5) && LinearAt(a, B2, B3 + B4 + B5);
    assert B3 + (B4 + B5) == B3 + B4 + B5 && B2 + (B3 + B4 + B5) == B2 + B3 + B4 + B5;
    assert ProductAt(a, 1.0, B2 + B3 + B4 + B5) && LinearAt(a, B1, B2 + B3 + B4 + B5);
    assert B1 + (B2 + B3 + B4 + B5) == B1 + B2 + B3 + B4 + B5;
    assert ProductAt(a, 1.0, B1 + B2 + B3 + B4 + B5);
  }

  lemma PdfAtZero(a: ExactArithmetic)
    requires a.exp(0.0) == 1.0
    ensures NormPdf(a, 0.0) == 1.0 / SQRT_2PI
  {
    assert ProductAt(a, -0.5, 0.0) && ProductAt(a, 0.0, 0.0) && QuotientAt(a, 1.0, SQRT_2PI);
    assert a.mul(a.mul(-0.5, 0.0), 0.0) == 0.0;
  }

  /** The approximated distribution at zero is not one half: the sum of the coefficients is not half
      of the constant it is divided by. */
  lemma CdfAtZero(a: ExactArithmetic)
    requires a.exp(0.0) == 1.0
    ensures NormCdf(a, 0.0) == 1.0 - 1.0 / SQRT_2PI * (B1 + B2 + B3 + B4 + B5)
    ensures Skew(a, 0.0) != 0.0
  {
    PdfAtZero(a);
    PolyAtOne(a);
    assert LinearAt(a, 0.0, 0.0) && ProductAt(a, P, 0.0) && LinearAt(a, 1.0, 0.0) && QuotientAt(a, 1.0, 1.0);
    var d, p := 1.0 / SQRT_2PI, B1 + B2 + B3 + B4 + B5;
    assert ProductAt(a, d, p) && LinearAt(a, 1.0, d * p);
    var c := 1.0 - d * p;
    assert LinearAt(a, c, 0.5) && ProductAt(a, 1.0, c - 0.5) && LinearAt(a, 0.5, c - 0.5);
    assert d * SQRT_2PI == 1.0;
    HalfOf(d, SQRT_2PI, p);
  }

  lemma HalfOf(d: real, q: real, p: real)
    requires d * q == 1.0 && 2.0 * p != q
    ensures 2.0 * (d * p) != 1.0
  {
    assert q * (2.0 * (d * p)) == 2.0 * p * (d * q);
  }

  lemma OffZeroWhen(a: ExactArithmetic, spot: real, k: real, d1: real, d2: real, g1: real, g2: real, g: real)
    requires g != 0.0
    requires g1 == (if d1 == 0.0 then g else 0.0) && g2 == (if d2 == 0.0 then g else 0.0)
    ensures a.mul(spot, g1) - a.mul(k, g2) == 0.0
      <==> if d1 == 0.0 && d2 == 0.0 then spot == k else (d1 != 0.0 || spot == 0.0) && (d2 != 0.0 || k == 0.0)
  {
    assert ProductAt(a, spot, g1) && ProductAt(a, k, g2);
    Cancels(spot, k, g);
    Cancels(spot, 0.0, g);
    Cancels(0.0, k, g);
  }

  lemma Cancels(x: real, y: real, g: real)
    requires g != 0.0
    ensures x * g - y * g == 0.0 <==> x == y
  {
    assert x * g - y * g == (x - y) * g;
  }

  /** Put-call parity holds exactly when neither d1 nor d2 is zero, or the term that a zero spoils
      vanishes; with both zero it holds when spot and discounted strike are equal. */
  lemma ParityExactlyWhen(a: ExactArithmetic, call: OptionParams, put: OptionParams, d1: real, d2: real, discount: real)
    requires a.exp(0.0) == 1.0
    requires call.isCall && put == call.(isCall := false)
    requires Terms(a, call, d1, d2, discount)
    ensures var spot, k := call.spot, a.mul(call.strike, discount);
      (PriceScalar(a, call).price - PriceScalar(a, put).price == spot - k)
      <==> if d1 == 0.0 && d2 == 0.0 then spot == k else (d1 != 0.0 || spot == 0.0) && (d2 != 0.0 || k == 0.0)
  {
    PutCallParity(a, call, put, d1, d2, discount);
    CdfAtZero(a);
    OffZeroWhen(a, call.spot, a.mul(call.strike, discount), d1, d2, Skew(a, d1), Skew(a, d2), Skew(a, 0.0));
  }

  /** An option for which it fails: at the money, with the rate minus half the variance. */
  lemma ParityCanFail(a: Arithmetic, call: OptionParams, put: OptionParams)
    requires Standard(a)
    requires call == OptionParams(100.0, 100.0, -0.125, 0.5, 1.0, true) && put == call.(isCall := false)
    ensures PriceScalar(a, call).price - PriceScalar(a, put).price
         != call.spot - a.mul(call.strike, a.exp(a.mul(a.neg(call.rate), call.expiry)))
  {
    var discount := a.exp(a.mul(a.neg(call.rate), call.expiry));
    var volSqrtT := a.mul(call.vol, a.sqrt(call.expiry));
    var d1 := D1(a, call, volSqrtT);
    var d2 := a.sub(d1, volSqrtT);
    AtTheMoney(a, call, volSqrtT);
    assert LinearAt(a, d1, volSqrtT);
    ParityExactlyWhen(a, call, put, d1, d2, discount);
  }

  lemma AtTheMoney(a: Arithmetic, call: OptionParams, volSqrtT: real)
    requires Standard(a)
    requires call == OptionParams(100.0, 100.0, -0.125, 0.5, 1.0, true) && volSqrtT == a.mul(call.vol, a.sqrt(call.expiry))
    ensures volSqrtT == 0.5 && D1(a, call, volSqrtT) == 0.0
  {
    assert ProductAt(a, 0.5, 1.0);
    assert QuotientAt(a, 100.0, 100.0) && ProductAt(a, 0.5, 0.5) && ProductAt(a, 0.25, 0.5) && LinearAt(a, -0.125, 0.125);
    assert ProductAt(a, 0.0, 1.0) && LinearAt(a, 0.0, 0.0) && QuotientAt(a, 0.0, 0.5);
  }

  // ----- the batch -----

  type Batch = params: seq<OptionParams> | params != [] witness [OptionParams(0.0, 0.0, 0.0, 0.0, 0.0, true)]

  /** Row k of the columns holds option p. */
  predicate Row(spot: real, strike: real, rate: real, vol: real, t: real, phi: real, p: OptionParams) {
    p == OptionParams(spot, strike, rate, vol, t, p.isCall) && phi == Phi(p.isCall)
  }

  /** The columns hold the padded batch, row by row. */
  ghost predicate Rows(params: Batch, spot: seq<real>, strike: seq<real>, rate: seq<real>, vol: seq<real>, t: seq<real>,
          phi: seq<real>) {
    && |spot| == |strike| == |rate| == |vol| == |t| == |phi|
    && forall k :: 0 <= k < |spot| ==> Row(spot[k], strike[k], rate[k], vol[k], t[k], phi[k], Padded(params, k))
  }

  /** The option that row k of a padded batch holds. */
  function Padded(params: Batch, k: nat): OptionParams {
    if k < |params| then params[k] else params[|params| - 1]
  }

  function PaddedLength(n: nat): (m: nat)
    ensures m % 4 == 0 && n <= m < n + 4
  {
    (n + 3) / 4 * 4
  }

  /** Entry k of lanes is what one lane makes of row k of the padded batch. */
  predicate LaneAt(a: Arithmetic, params: Batch, lanes: seq<Greeks>, k: nat)
    requires k < |lanes|
  {
    lanes[k] == PriceLane(a, Padded(params, k))
  }

  ghost predicate AreLanes(a: Arithmetic, params: Batch, lanes: seq<Greeks>) {
    forall k :: 0 <= k < |lanes| ==> LaneAt(a, params, lanes, k)
  }

  lemma LanesOf(a: Arithmetic, params: Batch, n: nat) returns (lanes: seq<Greeks>)
    ensures |lanes| == n && AreLanes(a, params, lanes)
  {
    lanes := seq(n, k requires 0 <= k < n => PriceLane(a, Padded(params, k)));
  }

  method Transpose(params: Batch) returns (
      spot: array<real>, strike: array<real>, rate: array<real>, vol: array<real>, t: array<real>, phi: array<real>)
    ensures fresh(spot) && fresh(strike) && fresh(rate) && fresh(vol) && fresh(t) && fresh(phi)
    ensures spot.Length == PaddedLength(|params|) && Rows(params, spot[..], strike[..], rate[..], vol[..], t[..], phi[..])
  {
    var n, m := |params|, PaddedLength(|params|);
    spot, strike, rate := new real[m], new real[m], new real[m];
    vol, t, phi := new real[m], new real[m], new real[m];
    for i := 0 to n
      invariant forall k :: 0 <= k < i ==> Row(spot[k], strike[k], rate[k], vol[k], t[k], phi[k], Padded(params, k))
    {
      var p := params[i];
      spot[i], strike[i], rate[i], vol[i], t[i] := p.spot, p.strike, p.rate, p.vol, p.expiry;
      phi[i] := if p.isCall then 1.0 else -1.0;
    }
    for i := n to m
      invariant forall k :: 0 <= k < i ==> Row(spot[k], strike[k], rate[k], vol[k], t[k], phi[k], Padded(params, k))
    {
      var last := n - 1;
      spot[i], strike[i], rate[i], vol[i], t[i], phi[i] := spot[last], strike[last], rate[last], vol[last], t[last], phi[last];
    }
  }

  function Load(column: array<real>, i: nat): F64x4
    requires i + 4 <= column.Length
    reads column
  {
    Lanes(column[i], column[i + 1], column[i + 2], column[i + 3])
  }

  /** A column with four lanes written from row i on. */
  function Written(column: seq<real>, i: nat, v: F64x4): (r: seq<real>)
    requires i + 4 <= |column|
    ensures |r| == |column|
  {
    column[i := v.l0][i + 1 := v.l1][i + 2 := v.l2][i + 3 := v.l3]
  }

  method Store(column: array<real>, i: nat, v: F64x4)
    requires i + 4 <= column.Length
    modifies column
    ensures column[..] == Written(old(column[..]), i, v)
  {
    column[i], column[i + 1], column[i + 2], column[i + 3] := v.l0, v.l1, v.l2, v.l3;
  }

  /** Four rows of the padded batch, from row i on, as one lane group. */
  predicate Group(params: Batch, i: nat, spot: F64x4, strike: F64x4, rate: F64x4, vol: F64x4, t: F64x4,
          phi: F64x4)
  {
    forall j :: 0 <= j < 4 ==> Row(spot.At(j), strike.At(j), rate.At(j), vol.At(j), t.At(j), phi.At(j), Padded(params, i + j))
  }

  /** Rows loaded from the columns of a batch are a group of it. */
  lemma LoadedGroup(params: Batch, i: nat, spot: array<real>, strike: array<real>, rate: array<real>, vol: array<real>,
                    t: array<real>, phi: array<real>)
    requires Rows(params, spot[..], strike[..], rate[..], vol[..], t[..], phi[..]) && i + 4 <= spot.Length
    ensures strike.Length == rate.Length == vol.Length == t.Length == phi.Length == spot.Length
    ensures Group(params, i, Load(spot, i), Load(strike, i), Load(rate, i), Load(vol, i), Load(t, i), Load(phi, i))
  {
  }

  /** Lane j of the group that starts at row i is entry i + j. */
  lemma GroupLanes(a: Arithmetic, params: Batch, lanes: seq<Greeks>, i: nat, spot: F64x4, strike: F64x4,
                   rate: F64x4, vol: F64x4, t: F64x4, phi: F64x4, c: Columns)
    requires i + 4 <= |lanes| && AreLanes(a, params, lanes)
    requires Group(params, i, spot, strike, rate, vol, t, phi)
    requires c == PriceLaneSimd(a, spot, strike, rate, vol, t, phi)
    ensures forall j :: 0 <= j < 4 ==> c.At(j) == lanes[i + j]
  {
    forall j | 0 <= j < 4 ensures c.At(j) == lanes[i + j] {
      assert LaneAt(a, params, lanes, i + j);
      LanesIndependent(a, spot, strike, rate, vol, t, phi, j, Padded(params, i + j));
    }
  }

  /** The six output columns. */
  datatype Table = Table(price: seq<real>, delta: seq<real>, gamma: seq<real>, vega: seq<real>, theta: seq<real>,
          rho: seq<real>) {
    predicate Sized(n: nat) {
      |price| == |delta| == |gamma| == |vega| == |theta| == |rho| == n
    }

    function Row(k: nat): Greeks
      requires k < |price| && Sized(|price|)
    {
      Greeks(price[k], delta[k], gamma[k], vega[k], theta[k], rho[k])
    }

    function Write(i: nat, c: Columns): (t: Table)
      requires Sized(|price|) && i + 4 <= |price|
      ensures t.Sized(|price|)
    {
      Table(Written(price, i, c.price), Written(delta, i, c.delta), Written(gamma, i, c.gamma),
            Written(vega, i, c.vega), Written(theta, i, c.theta), Written(rho, i, c.rho))
    }
  }

  predicate Priced(lanes: seq<Greeks>, n: nat, t: Table)
    requires t.Sized(|lanes|) && n <= |lanes|
  {
    forall k :: 0 <= k < n ==> t.Row(k) == lanes[k]
  }

  lemma PricedGrows(lanes: seq<Greeks>, i: nat, c: Columns, t: Table)
    requires t.Sized(|lanes|) && i + 4 <= |lanes|
    requires Priced(lanes, i, t)
    requires forall j :: 0 <= j < 4 ==> c.At(j) == lanes[i + j]
    ensures Priced(lanes, i + 4, t.Write(i, c))
  {
    forall k | 0 <= k < i + 4 ensures t.Write(i, c).Row(k) == lanes[k] {
      if k >= i {
        assert c.At(k - i) == lanes[i + (k - i)];
      }
    }
  }

  ghost predicate Apart(price: array<real>, delta: array<real>, gamma: array<real>, vega: array<real>,
          theta: array<real>, rho: array<real>) {
    && price != delta && price != gamma && price != vega && price != theta && price != rho
    && delta != gamma && delta != vega && delta != theta && delta != rho
    && gamma != vega && gamma != theta && gamma != rho && vega != theta && vega != rho && theta != rho
  }

  /** The body of the loop over lane groups: price four rows from row i on and write the results. */
  method PriceGroup(a: Arithmetic, i: nat, spot: F64x4, strike: F64x4, rate: F64x4, vol: F64x4, t: F64x4, phi: F64x4,
                    price: array<real>, delta: array<real>, gamma: array<real>, vega: array<real>, theta: array<real>,
                    rho: array<real>, ghost params: Batch, ghost lanes: seq<Greeks>, ghost table: Table)
    requires i + 4 <= |lanes| && AreLanes(a, params, lanes)
    requires Group(params, i, spot, strike, rate, vol, t, phi)
    requires Apart(price, delta, gamma, vega, theta, rho)
    requires table == Table(price[..], delta[..], gamma[..], vega[..], theta[..], rho[..])
    requires table.Sized(|lanes|) && Priced(lanes, i, table)
    modifies price, delta, gamma, vega, theta, rho
    ensures var t := Table(price[..], delta[..], gamma[..], vega[..], theta[..], rho[..]);
      t.Sized(|lanes|) && Priced(lanes, i + 4, t)
  {
    var c := PriceLaneSimd(a, spot, strike, rate, vol, t, phi);
    Store(price, i, c.price);
    Store(delta, i, c.delta);
    Store(gamma, i, c.gamma);
    Store(vega, i, c.vega);
    Store(theta, i, c.theta);
    Store(rho, i, c.rho);
    GroupLanes(a, params, lanes, i, spot, strike, rate, vol, t, phi, c);
    PricedGrows(lanes, i, c, table);
    assert Table(price[..], delta[..], gamma[..], vega[..], theta[..], rho[..]) == table.Write(i, c);
  }

  /** The loop over lane groups. */
  method PriceGroups(a: Arithmetic, params: Batch, spot: array<real>, strike: array<real>, rate: array<real>,
                     vol: array<real>, t: array<real>, phi: array<real>,
                     price: array<real>, delta: array<real>, gamma: array<real>, vega: array<real>, theta: array<real>,
                     rho: array<real>, ghost lanes: seq<Greeks>)
    requires |lanes| == spot.Length == PaddedLength(|params|) && AreLanes(a, params, lanes)
    requires Rows(params, spot[..], strike[..], rate[..], vol[..], t[..], phi[..])
    requires Table(price[..], delta[..], gamma[..], vega[..], theta[..], rho[..]).Sized(|lanes|)
    requires Apart(price, delta, gamma, vega, theta, rho)
    requires {spot, strike, rate, vol, t, phi} !! {price, delta, gamma, vega, theta, rho}
    modifies price, delta, gamma, vega, theta, rho
    ensures var t := Table(price[..], delta[..], gamma[..], vega[..], theta[..], rho[..]);
      t.Sized(|lanes|) && Priced(lanes, |lanes|, t)
  {
    ghost var table := Table(price[..], delta[..], gamma[..], vega[..], theta[..], rho[..]);
    var i := 0;
    while i < spot.Length
      invariant i <= spot.Length && i % 4 == 0
      invariant table == Table(price[..], delta[..], gamma[..], vega[..], theta[..], rho[..])
      invariant table.Sized(|lanes|) && Priced(lanes, i, table)
      invariant Rows(params, spot[..], strike[..], rate[..], vol[..], t[..], phi[..])
    {
      LoadedGroup(params, i, spot, strike, rate, vol, t, phi);
      PriceGroup(a, i, Load(spot, i), Load(strike, i), Load(rate, i), Load(vol, i), Load(t, i), Load(phi, i),
                 price, delta, gamma, vega, theta, rho, params, lanes, table);
      table := Table(price[..], delta[..], gamma[..], vega[..], theta[..], rho[..]);
      i := i + 4;
    }
  }

  /** The output columns of a batch. */
  method PriceColumns(a: Arithmetic, params: Batch, spot: array<real>, strike: array<real>,
                      rate: array<real>, vol: array<real>, t: array<real>, phi: array<real>, ghost lanes: seq<Greeks>)
    returns (price: array<real>, delta: array<real>, gamma: array<real>, vega: array<real>, theta: array<real>, rho: array<real>)
    requires |lanes| == spot.Length == PaddedLength(|params|) && AreLanes(a, params, lanes)
    requires Rows(params, spot[..], strike[..], rate[..], vol[..], t[..], phi[..])
    ensures var t := Table(price[..], delta[..], gamma[..], vega[..], theta[..], rho[..]);
      t.Sized(|lanes|) && Priced(lanes, |lanes|, t)
  {
    var m := spot.Length;
    price, delta, gamma := new real[m], new real[m], new real[m];
    vega, theta, rho := new real[m], new real[m], new real[m];
    PriceGroups(a, params, spot, strike, rate, vol, t, phi, price, delta, gamma, vega, theta, rho, lanes);
  }

  lemma BatchLanes(a: Arithmetic, params: Batch, lanes: seq<Greeks>)
    requires |params| <= |lanes| && AreLanes(a, params, lanes)
    ensures forall i :: 0 <= i < |params| ==> lanes[i] == PriceLane(a, params[i])
    ensures Lawful(a) ==> forall i :: 0 <= i < |params| ==> lanes[i] == PriceScalar(a, params[i])
  {
    forall i | 0 <= i < |params|
      ensures lanes[i] == PriceLane(a, params[i])
      ensures Lawful(a) ==> lanes[i] == PriceScalar(a, params[i])
    {
      assert LaneAt(a, params, lanes, i);
      if Lawful(a) {
        LaneIsScalar(a, params[i]);
      }
    }
  }

  /** price_batch_simd: for every batch length, the i-th result is the i-th option's lane alone;
      the padding and the neighbours in the lane group never show. */
  method PriceBatchSimd(a: Arithmetic, params: seq<OptionParams>) returns (out: seq<Greeks>)
    ensures |out| == |params|
    ensures forall i :: 0 <= i < |params| ==> out[i] == PriceLane(a, params[i])
    ensures Lawful(a) ==> forall i :: 0 <= i < |params| ==> out[i] == PriceScalar(a, params[i])
  {
    if params == [] {
      return [];
    }
    var spot, strike, rate, vol, t, phi := Transpose(params);
    ghost var lanes := LanesOf(a, params, spot.Length);
    var price, delta, gamma, vega, theta, rho := PriceColumns(a, params, spot, strike, rate, vol, t, phi, lanes);
    ghost var table := Table(price[..], delta[..], gamma[..], vega[..], theta[..], rho[..]);
    out := [];
    for j := 0 to |params|
      invariant |out| == j && out == lanes[..j]
    {
      assert table.Row(j) == lanes[j];
      out := out + [Greeks(price[j], delta[j], gamma[j], vega[j], theta[j], rho[j])];
    }
    assert out == lanes[..|params|];
    BatchLanes(a, params, lanes);
  }
}
