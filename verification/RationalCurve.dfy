/** The constant-product output curve `n*x / (c + s*x)` over the reals, shared by
    the parallel splitter and the fast sizer. */
module RationalCurve {
  datatype Curve = Curve(numerator: real, denominatorConst: real, denominatorSlope: real)

  function RMin(a: real, b: real): real { if a <= b then a else b }

  function RMax(a: real, b: real): real { if a >= b then a else b }

  predicate Proper(k: Curve) {
    k.numerator > 0.0 && k.denominatorConst > 0.0 && k.denominatorSlope >= 0.0
  }

  /** A square root as the code uses it, free of rounding. */
  ghost predicate ExactRoot(sqrt: real -> real) {
    forall v: real :: v >= 0.0 ==> sqrt(v) >= 0.0 && sqrt(v) * sqrt(v) == v
  }

  function Denominator(k: Curve, x: real): (d: real)
    requires Proper(k) && x >= 0.0
    ensures d > 0.0
  {
    k.denominatorConst + k.denominatorSlope * x
  }

  function Output(k: Curve, x: real): real
    requires Proper(k) && x >= 0.0
  {
    k.numerator * x / Denominator(k, x)
  }

  /** The marginal output at `x`. */
  function Slope(k: Curve, x: real): real
    requires Proper(k) && x >= 0.0
  {
    k.numerator * k.denominatorConst / (Denominator(k, x) * Denominator(k, x))
  }

  lemma ProductSign(x: real, y: real)
    requires y > 0.0
    ensures x < 0.0 <==> x * y < 0.0
    ensures x > 0.0 <==> x * y > 0.0
  {}

  lemma ProductMono(x: real, y: real, z: real)
    requires z > 0.0
    ensures x <= y <==> x * z <= y * z
  {
    ProductSign(y - x, z);
  }

  lemma QuotientTimes(p: real, q: real)
    requires q != 0.0
    ensures p / q * q == p
  {}

  lemma OutputTimes(k: Curve, x: real)
    requires Proper(k) && x >= 0.0
    ensures Output(k, x) * Denominator(k, x) == k.numerator * x
  {}

  lemma SlopeTimes(k: Curve, x: real)
    requires Proper(k) && x >= 0.0
    ensures Slope(k, x) * (Denominator(k, x) * Denominator(k, x)) == k.numerator * k.denominatorConst
    ensures Slope(k, x) > 0.0
  {
    var d, p, m := Denominator(k, x), k.numerator * k.denominatorConst, Slope(k, x);
    assert d * d > 0.0;
    QuotientTimes(p, d * d);
    ProductSign(m, d * d);
  }

  /** The polynomial identity behind concavity, for the denominators at two points. */
  ghost predicate Concave(c: real, s: real, a: real, b: real, A: real, B: real) {
    c * (b - a) * B - b * (A * A) + a * A * B == c * s * ((b - a) * (b - a))
  }

  lemma TangentIdentity(k: Curve, a: real, b: real)
    requires Proper(k) && a >= 0.0 && b >= 0.0
    ensures Concave(k.denominatorConst, k.denominatorSlope, a, b, Denominator(k, a), Denominator(k, b))
  {
    var c, s, A, B := k.denominatorConst, k.denominatorSlope, Denominator(k, a), Denominator(k, b);
    calc {
      c * (b - a) * B - b * (A * A) + a * A * B;
      c * (b - a) * B + A * (a * B - b * A);
      { assert a * B - b * A == c * (a - b); }
      c * (b - a) * B + A * (c * (a - b));
      c * (b - a) * (B - A);
      { assert B - A == s * (b - a); }
      c * (b - a) * (s * (b - a));
      c * s * ((b - a) * (b - a));
    }
  }

  /** `u` and `v` are the outputs at `a` and `b`, `g` the marginal output at `a`. */
  ghost predicate Measured(n: real, c: real, a: real, b: real, A: real, B: real, u: real, v: real, g: real) {
    u * A == n * a && v * B == n * b && g * (A * A) == n * c
  }

  lemma Measure(k: Curve, a: real, b: real)
    requires Proper(k) && a >= 0.0 && b >= 0.0
    ensures Measured(k.numerator, k.denominatorConst, a, b, Denominator(k, a), Denominator(k, b),
                     Output(k, a), Output(k, b), Slope(k, a))
  {
    hide Output, Slope, Denominator;
    OutputTimes(k, a);
    OutputTimes(k, b);
    SlopeTimes(k, a);
  }

  /** The curve lies below each of its tangents. */
  lemma Tangent(k: Curve, a: real, b: real)
    requires Proper(k) && a >= 0.0 && b >= 0.0
    ensures Output(k, b) - Output(k, a) <= Slope(k, a) * (b - a)
  {
    hide Output, Slope, Denominator, Concave, Measured;
    Measure(k, a, b);
    TangentIdentity(k, a, b);
    TangentGap(k.numerator, k.denominatorConst, k.denominatorSlope, a, b, Denominator(k, a), Denominator(k, b),
               Output(k, a), Output(k, b), Slope(k, a));
  }

  lemma TangentGap(n: real, c: real, s: real, a: real, b: real, A: real, B: real, u: real, v: real, g: real)
    requires n > 0.0 && c > 0.0 && s >= 0.0 && A > 0.0 && B > 0.0
    requires Measured(n, c, a, b, A, B, u, v, g) && Concave(c, s, a, b, A, B)
    ensures v - u <= g * (b - a)
  {
    var gap, q := g * (b - a) - v + u, (b - a) * (b - a);
    assert q >= 0.0;
    NonNegativeProduct(c, s);
    NonNegativeProduct(c * s, q);
    NonNegativeProduct(n, c * s * q);
    ScaledGap(n, c, s, a, b, A, B, u, v, g);
    assert gap * (A * A * B) == n * (c * s * q);
    NonNegativeFactor(gap, A, B);
  }

  lemma NonNegativeProduct(x: real, y: real)
    requires x >= 0.0 && y >= 0.0
    ensures x * y >= 0.0
  {}

  lemma PositiveProduct(x: real, y: real) returns (z: real)
    requires x > 0.0 && y > 0.0
    ensures z == x * y && z > 0.0
  {
    z := x * y;
  }

  lemma NonNegativeFactor(x: real, y: real, z: real)
    requires y > 0.0 && z > 0.0 && x * (y * y * z) >= 0.0
    ensures x >= 0.0
  {
    var w := PositiveProduct(y, y);
    var w' := PositiveProduct(w, z);
    assert w' == y * y * z;
    ProductSign(x, w');
  }

  lemma ScaledGap(n: real, c: real, s: real, a: real, b: real, A: real, B: real, u: real, v: real, g: real)
    requires u * A == n * a && v * B == n * b && g * (A * A) == n * c && Concave(c, s, a, b, A, B)
    ensures (g * (b - a) - v + u) * (A * A * B) == n * (c * s * ((b - a) * (b - a)))
  {
    calc {
      (g * (b - a) - v + u) * (A * A * B);
      g * (b - a) * (A * A * B) - v * (A * A * B) + u * (A * A * B);
      { assert g * (b - a) * (A * A * B) == (g * (A * A)) * ((b - a) * B); }
      { assert v * (A * A * B) == (v * B) * (A * A); }
      { assert u * (A * A * B) == (u * A) * (A * B); }
      (n * c) * ((b - a) * B) - (n * b) * (A * A) + (n * a) * (A * B);
      { assert (n * c) * ((b - a) * B) == n * (c * (b - a) * B); }
      { assert (n * b) * (A * A) == n * (b * (A * A)); }
      { assert (n * a) * (A * B) == n * (a * A * B); }
      n * (c * (b - a) * B) - n * (b * (A * A)) + n * (a * A * B);
      n * (c * (b - a) * B - b * (A * A) + a * A * B);
    }
  }

  /** More in, more out. */
  lemma OutputMonotone(k: Curve, a: real, b: real)
    requires Proper(k) && 0.0 <= a <= b
    ensures 0.0 <= Output(k, a) <= Output(k, b)
  {
    Tangent(k, b, a);
    SlopeTimes(k, b);
    assert Slope(k, b) * (a - b) <= 0.0;
    OutputTimes(k, a);
    ProductSign(Output(k, a), Denominator(k, a));
    assert k.numerator * a >= 0.0;
  }

  lemma DenominatorGrows(k: Curve, a: real, b: real)
    requires Proper(k) && 0.0 <= a <= b
    ensures Denominator(k, a) <= Denominator(k, b)
  {
    NonNegativeProduct(k.denominatorSlope, b - a);
    assert Denominator(k, b) - Denominator(k, a) == k.denominatorSlope * (b - a);
  }

  /** The marginal output falls. */
  lemma SlopeAntitone(k: Curve, a: real, b: real)
    requires Proper(k) && 0.0 <= a <= b
    ensures Slope(k, b) <= Slope(k, a)
  {
    hide Slope, Denominator;
    SlopeTimes(k, a);
    SlopeTimes(k, b);
    DenominatorGrows(k, a, b);
    LargerSquareSmallerQuotient(Denominator(k, a), Denominator(k, b), Slope(k, a), Slope(k, b));
  }

  lemma LargerSquareSmallerQuotient(A: real, B: real, ga: real, gb: real)
    requires 0.0 < A <= B && gb > 0.0 && ga * (A * A) == gb * (B * B)
    ensures gb <= ga
  {
    ProductSign(A, A);
    assert B * B - A * A == (B - A) * (B + A);
    NonNegativeProduct(B - A, B + A);
    ProductMono(A * A, B * B, gb);
    ProductMono(gb, ga, A * A);
  }

  /** Where the curve's marginal output is `marginal`, in closed form. */
  function PointAt(k: Curve, marginal: real, sqrt: real -> real): real
    requires k.denominatorSlope > 0.0 && marginal > 0.0
  {
    (sqrt(RadicandAt(k, marginal)) - k.denominatorConst) / k.denominatorSlope
  }

  function RadicandAt(k: Curve, marginal: real): real
    requires marginal > 0.0
  {
    k.numerator * k.denominatorConst / marginal
  }

  /** The closed form inverts the marginal output. */
  lemma PointHasSlope(k: Curve, marginal: real, sqrt: real -> real)
    requires Proper(k) && k.denominatorSlope > 0.0 && ExactRoot(sqrt)
    requires 0.0 < marginal < Slope(k, 0.0)
    ensures PointAt(k, marginal, sqrt) > 0.0
    ensures Slope(k, PointAt(k, marginal, sqrt)) == marginal
  {
    hide Slope, Denominator, ExactRoot, RadicandAt;
    var v := Radicand(k, marginal);
    var r := RootOf(sqrt, v);
    RootExceeds(k, marginal, v, r);
    AmountFacts(k, marginal, r, (r - k.denominatorConst) / k.denominatorSlope);
  }

  lemma RootOf(sqrt: real -> real, v: real) returns (r: real)
    requires ExactRoot(sqrt) && v >= 0.0
    ensures r == sqrt(v) && r >= 0.0 && r * r == v
  {
    r := sqrt(v);
  }

  lemma Radicand(k: Curve, marginal: real) returns (v: real)
    requires Proper(k) && marginal > 0.0
    ensures v == RadicandAt(k, marginal)
    ensures v > 0.0 && v * marginal == k.numerator * k.denominatorConst
  {
    var nc := PositiveProduct(k.numerator, k.denominatorConst);
    v := nc / marginal;
    QuotientTimes(nc, marginal);
    ProductSign(v, marginal);
  }

  lemma RootExceeds(k: Curve, marginal: real, v: real, r: real)
    requires Proper(k) && 0.0 < marginal < Slope(k, 0.0)
    requires v * marginal == k.numerator * k.denominatorConst
    requires r >= 0.0 && r * r == v
    ensures r > k.denominatorConst
  {
    SlopeTimes(k, 0.0);
    RootExceedsConst(k.denominatorConst, marginal, Slope(k, 0.0), v, r);
  }

  lemma AmountFacts(k: Curve, marginal: real, r: real, amount: real)
    requires Proper(k) && k.denominatorSlope > 0.0
    requires r > k.denominatorConst && (r * r) * marginal == k.numerator * k.denominatorConst
    requires amount == (r - k.denominatorConst) / k.denominatorSlope
    ensures amount > 0.0 && Slope(k, amount) == marginal
  {
    QuotientTimes(r - k.denominatorConst, k.denominatorSlope);
    ProductSign(amount, k.denominatorSlope);
    assert Denominator(k, amount) == r;
    SlopeTimes(k, amount);
    var rr := PositiveProduct(r, r);
    SameQuotient(Slope(k, amount), marginal, rr);
  }

  lemma RootExceedsConst(c: real, marginal: real, initial: real, v: real, r: real)
    requires c > 0.0 && 0.0 < marginal < initial && r >= 0.0
    requires v * marginal == initial * (c * c) && r * r == v
    ensures r > c
  {
    if r <= c {
      SquareMono(r, c);
      var cc := PositiveProduct(c, c);
      ProductMono(v, cc, marginal);
      ProductMono(initial, marginal, cc);
    }
  }

  lemma SquareMono(x: real, y: real)
    requires 0.0 <= x <= y
    ensures x * x <= y * y
  {
    NonNegativeProduct(y - x, y + x);
    assert (y - x) * (y + x) == y * y - x * x;
  }

  lemma SameQuotient(x: real, y: real, z: real)
    requires z > 0.0 && x * z == y * z
    ensures x == y
  {
    ProductSign(x - y, z);
  }

  lemma ScaleBoth(x: real, y: real, z: real)
    requires x <= y && z >= 0.0
    ensures x * z <= y * z
    ensures x * -z >= y * -z
  {
    NonNegativeProduct(y - x, z);
  }

  /** The closed form is positive exactly when the curve starts steeper than `marginal`. */
  lemma PointIsPositive(k: Curve, marginal: real, sqrt: real -> real)
    requires Proper(k) && k.denominatorSlope > 0.0 && ExactRoot(sqrt) && marginal > 0.0
    ensures PointAt(k, marginal, sqrt) > 0.0 <==> marginal < Slope(k, 0.0)
  {
    hide Slope, Denominator, ExactRoot, RadicandAt;
    if marginal < Slope(k, 0.0) {
      PointHasSlope(k, marginal, sqrt);
    } else {
      var v := Radicand(k, marginal);
      var r := RootOf(sqrt, v);
      SlopeTimes(k, 0.0);
      StartDenominator(k);
      RootAtMostConst(k.denominatorConst, marginal, Slope(k, 0.0), v, r);
      QuotientTimes(r - k.denominatorConst, k.denominatorSlope);
      ProductSign((r - k.denominatorConst) / k.denominatorSlope, k.denominatorSlope);
    }
  }

  lemma StartDenominator(k: Curve)
    requires Proper(k)
    ensures Denominator(k, 0.0) == k.denominatorConst
  {}

  lemma RootAtMostConst(c: real, marginal: real, initial: real, v: real, r: real)
    requires c > 0.0 && 0.0 < initial <= marginal && r >= 0.0
    requires v * marginal == initial * (c * c) && r * r == v
    ensures r <= c
  {
    var cc := PositiveProduct(c, c);
    ProductMono(initial, marginal, cc);
    ProductMono(v, cc, marginal);
    if r > c {
      SquareGrows(c, r);
    }
  }

  lemma SquareGrows(x: real, y: real)
    requires 0.0 < x < y
    ensures x * x < y * y
  {
    assert y * y - x * x == (y - x) * (y + x);
    var p := PositiveProduct(y - x, y + x);
  }
}
