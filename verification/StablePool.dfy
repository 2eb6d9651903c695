/** Aerodrome pools (`src/amm/aerodrome_v2.rs`): the stable curve x^3*y + x*y^3 in 1e18
    fixed point, its truncating Newton solver, and the volatile branch.

    256-bit checked operations are `Option`s; 128-bit ones saturate. */
module StablePool {
  import opened Common

  const ONE_E18: nat := 1_000_000_000_000_000_000
  const U256_MAX: nat := 0xFFFF_FFFF_FFFF_FFFF_FFFF_FFFF_FFFF_FFFF_FFFF_FFFF_FFFF_FFFF_FFFF_FFFF_FFFF_FFFF

  datatype PoolState = PoolState(reserve0: nat, reserve1: nat, decimals0: nat, decimals1: nat, stable: bool, feePpm: nat)

  // ----- checked 256-bit arithmetic

  function Checked(n: int): Option<nat> {
    if 0 <= n <= U256_MAX then Some(n) else None
  }

  function CheckedMul(a: nat, b: nat): Option<nat> {
    Checked(a * b)
  }

  function CheckedAdd(a: nat, b: nat): Option<nat> {
    Checked(a + b)
  }

  function CheckedSub(a: nat, b: nat): Option<nat> {
    Checked(a - b)
  }

  function CheckedDiv(a: nat, b: nat): Option<nat> {
    if b == 0 then None else Some(a / b)
  }

  /** `a.checked_mul(b)?.checked_div(d)` */
  function MulDiv(a: nat, b: nat, d: nat): Option<nat> {
    var product :- CheckedMul(a, b);
    CheckedDiv(product, d)
  }

  // ----- the curve

  /** `stable_f` */
  function StableF(x0: nat, y: nat): Option<nat> {
    var a :- MulDiv(x0, y, ONE_E18);
    var x2 :- MulDiv(x0, x0, ONE_E18);
    var y2 :- MulDiv(y, y, ONE_E18);
    var b :- CheckedAdd(x2, y2);
    MulDiv(a, b, ONE_E18)
  }

  /** `stable_d` */
  function StableD(x0: nat, y: nat): Option<nat> {
    var y2 :- MulDiv(y, y, ONE_E18);
    var triple :- CheckedMul(3, x0);
    var first :- MulDiv(triple, y2, ONE_E18);
    var x2 :- MulDiv(x0, x0, ONE_E18);
    var x3 :- MulDiv(x2, x0, ONE_E18);
    CheckedAdd(first, x3)
  }

  /** `stable_k` */
  function StableK(x: nat, y: nat, decimals0: nat, decimals1: nat): Option<nat> {
    var x :- MulDiv(x, ONE_E18, decimals0);
    var y :- MulDiv(y, ONE_E18, decimals1);
    StableF(x, y)
  }

  // ----- the solver

  datatype Step = Fail | Done(y: nat) | Next(y: nat)

  function ToStep(y: Option<nat>): Step {
    if y.None? then Fail else Next(y.value)
  }

  /** One round of the Newton loop. */
  function NewtonStep(x0: nat, xy: nat, y: nat): Step {
    var k := StableF(x0, y);
    var denom := StableD(x0, y);
    if k.None? || denom.None? || denom.value == 0 then Fail
    else if k.value < xy then
      var dy := MulDiv(xy - k.value, ONE_E18, denom.value);
      if dy.None? then Fail
      else if dy.value != 0 then ToStep(CheckedAdd(y, dy.value))
      else if y + 1 > U256_MAX || StableF(x0, y + 1).None? then Fail
      else if StableF(x0, y + 1).value > xy then Done(y + 1)
      else Next(y + 1)
    else
      var dy := MulDiv(k.value - xy, ONE_E18, denom.value);
      if dy.None? then Fail
      else if dy.value != 0 then ToStep(CheckedSub(y, dy.value))
      else if k.value == xy then Done(y)
      else if y == 0 || StableF(x0, y - 1).None? then Fail
      else if StableF(x0, y - 1).value < xy then Done(y)
      else Next(y - 1)
  }

  /** Up to `rounds` steps, until one of them finishes or fails. */
  function Iterate(step: nat -> Step, y: nat, rounds: nat): Option<nat>
    decreases rounds
  {
    if rounds == 0 then None
    else match step(y)
      case Fail => None
      case Done(y') => Some(y')
      case Next(y') => Iterate(step, y', rounds - 1)
  }

  function NewtonSteps(x0: nat, xy: nat): nat -> Step {
    (y: nat) => NewtonStep(x0, xy, y)
  }

  /** `solve_stable_y` */
  method SolveStableY(x0: nat, xy: nat, y0: nat) returns (r: Option<nat>)
    ensures r == Iterate(NewtonSteps(x0, xy), y0, 255)
  {
    hide NewtonStep;
    var y := y0;
    for round := 0 to 255
      invariant Iterate(NewtonSteps(x0, xy), y0, 255) == Iterate(NewtonSteps(x0, xy), y, 255 - round)
    {
      var step := NewtonStep(x0, xy, y);
      match step {
        case Fail => return None;
        case Done(y') => return Some(y');
        case Next(y') => y := y';
      }
    }
    return None;
  }

  /** `y` is on or just above the curve: f(x0, y) reaches xy, exactly or for the first time. */
  ghost predicate OnCurve(x0: nat, xy: nat, y: nat) {
    && StableF(x0, y).Some?
    && StableF(x0, y).value >= xy
    && (StableF(x0, y).value == xy || (y > 0 && StableF(x0, y - 1).Some? && StableF(x0, y - 1).value < xy))
  }

  lemma {:induction false} IterateEndsInDone(step: nat -> Step, y: nat, rounds: nat) returns (last: nat)
    requires Iterate(step, y, rounds).Some?
    ensures step(last) == Done(Iterate(step, y, rounds).value)
    decreases rounds
  {
    if step(y).Done? {
      last := y;
    } else {
      last := IterateEndsInDone(step, step(y).y, rounds - 1);
    }
  }

  /** Whatever the solver returns lies on the curve. */
  lemma NewtonLandsOnCurve(x0: nat, xy: nat, y0: nat, rounds: nat)
    requires Iterate(NewtonSteps(x0, xy), y0, rounds).Some?
    ensures OnCurve(x0, xy, Iterate(NewtonSteps(x0, xy), y0, rounds).value)
  {
    hide NewtonStep, OnCurve;
    var last := IterateEndsInDone(NewtonSteps(x0, xy), y0, rounds);
    StepLandsOnCurve(x0, xy, last);
  }

  lemma StepLandsOnCurve(x0: nat, xy: nat, y: nat)
    ensures NewtonStep(x0, xy, y).Done? ==> OnCurve(x0, xy, NewtonStep(x0, xy, y).y)
  {
    hide StableF, StableD, MulDiv;
  }

  // ----- the curve over unbounded integers

  function Floor(a: nat, b: nat, d: nat): (q: nat)
    requires d > 0
    ensures MulDiv(a, b, d).Some? ==> MulDiv(a, b, d).value == q
  {
    a * b / d
  }

  /** `stable_f` with the same truncations and no width limit. */
  function IdealF(x0: nat, y: nat): nat {
    Floor(Floor(x0, y, ONE_E18), Floor(x0, x0, ONE_E18) + Floor(y, y, ONE_E18), ONE_E18)
  }

  /** `stable_k` with the same truncations and no width limit. */
  function IdealK(x: nat, y: nat, decimals0: nat, decimals1: nat): nat
    requires decimals0 > 0 && decimals1 > 0
  {
    IdealF(Floor(x, ONE_E18, decimals0), Floor(y, ONE_E18, decimals1))
  }

  lemma IdealAgrees(x0: nat, y: nat)
    ensures StableF(x0, y).Some? ==> StableF(x0, y).value == IdealF(x0, y)
  {
    hide MulDiv, Floor;
  }

  lemma IdealKAgrees(x: nat, y: nat, decimals0: nat, decimals1: nat)
    ensures StableK(x, y, decimals0, decimals1).Some? ==>
      && decimals0 > 0 && decimals1 > 0
      && StableK(x, y, decimals0, decimals1).value == IdealK(x, y, decimals0, decimals1)
  {
    if StableK(x, y, decimals0, decimals1).Some? {
      assert decimals0 > 0 && decimals1 > 0;
      IdealAgrees(Floor(x, ONE_E18, decimals0), Floor(y, ONE_E18, decimals1));
      hide Floor, StableF, IdealF;
    }
  }

  lemma DivMono(a: nat, b: nat, d: nat)
    requires a <= b && d > 0
    ensures a / d <= b / d
  {
    DivBounds(a, d);
    DivBounds(b, d);
    QuotientMono(a / d, b / d, a, b, d);
  }

  lemma FloorMono(a: nat, b: nat, a': nat, b': nat, d: nat)
    requires a <= a' && b <= b' && d > 0
    ensures Floor(a, b, d) <= Floor(a', b', d)
  {
    MulMono(a, a', b);
    MulMono(b, b', a');
    assert a * b <= a' * b';
    DivMono(a * b, a' * b', d);
  }

  /** Truncation does not break monotonicity. */
  lemma IdealFMono(x0: nat, y: nat, x0': nat, y': nat)
    requires x0 <= x0' && y <= y'
    ensures IdealF(x0, y) <= IdealF(x0', y')
  {
    FloorMono(x0, y, x0', y', ONE_E18);
    FloorMono(x0, x0, x0', x0', ONE_E18);
    FloorMono(y, y, y', y', ONE_E18);
    FloorMono(Floor(x0, y, ONE_E18), Floor(x0, x0, ONE_E18) + Floor(y, y, ONE_E18),
              Floor(x0', y', ONE_E18), Floor(x0', x0', ONE_E18) + Floor(y', y', ONE_E18), ONE_E18);
  }

  lemma FloorBounds(a: nat, b: nat, d: nat)
    requires d > 0
    ensures Floor(a, b, d) * d <= a * b < (Floor(a, b, d) + 1) * d
  {
    DivBounds(a * b, d);
  }

  lemma SumTimes(p: nat, q: nat, d: nat)
    ensures (p + q) * d == p * d + q * d
  {}

  lemma MulBoth(a: nat, b: nat, c: nat, d: nat)
    requires a <= c && b <= d
    ensures a * b <= c * d
  {
    MulMono(a, c, b);
    MulMono(b, d, c);
  }

  lemma ProductAbove(P: nat, Q: nat, a: nat, b: nat, one: nat)
    requires a <= P <= a + one && b <= Q <= b + 2 * one
    ensures a * b <= P * Q <= a * b + (2 * P + Q) * one
  {
    MulBoth(a, b, P, Q);
    MulMono(P - a, one, Q);
    assert (P - a) * Q == P * Q - a * Q;
    MulMono(Q - b, 2 * one, a);
    assert (Q - b) * a == a * Q - a * b;
    MulMono(a, P, 2 * one);
    assert (2 * P + Q) * one == P * (2 * one) + Q * one && 2 * one * a == a * (2 * one);
  }

  lemma CubeBounds(n: nat, f: nat, one: nat)
    requires one > 0 && f * one <= n < (f + 1) * one
    ensures f * one * one * one <= n * one * one < (f + 1) * one * one * one
  {
    var g, h := f * one, (f + 1) * one;
    MulMono(g, n, one);
    ScaleStrict(n, h, one);
    MulMono(g * one, n * one, one);
    ScaleStrict(n * one, h * one, one);
  }

  lemma ProductOfScaled(a: nat, b: nat, one: nat)
    ensures (a * one) * (b * one) == a * b * one * one
  {
    assert (a * one) * (b * one) == (a * one * b) * one;
    assert a * one * b == a * b * one;
  }

  /** Two truncated factors and their truncated product, against the true product. */
  lemma TruncatedProduct(P: nat, Q: nat, a: nat, b: nat, f: nat, one: nat)
    requires one > 0 && a * one <= P <= a * one + one && b * one <= Q <= b * one + 2 * one
    requires f * one <= a * b < (f + 1) * one
    ensures f * one * one * one <= P * Q < (f + 1) * one * one * one + (2 * P + Q) * one
  {
    ProductAbove(P, Q, a * one, b * one, one);
    ProductOfScaled(a, b, one);
    CubeBounds(a * b, f, one);
  }

  lemma ScaleStrict(a: int, b: int, c: int)
    requires a < b && c > 0
    ensures a * c < b * c
  {
    MulSign(a - b, c);
  }

  /** The truncating curve function is x^3*y + x*y^3 in 1e18 units, less than a unit and a share of
      the squared sum of the two amounts away. */
  lemma IdealFIsCurve(x: nat, y: nat)
    ensures IdealF(x, y) * ONE_E18 * ONE_E18 * ONE_E18 <= x * y * (x * x + y * y)
    ensures x * y * (x * x + y * y) <
            (IdealF(x, y) + 1) * ONE_E18 * ONE_E18 * ONE_E18 + (2 * (x * y) + (x * x + y * y)) * ONE_E18
  {
    var a, b, c := Floor(x, y, ONE_E18), Floor(x, x, ONE_E18), Floor(y, y, ONE_E18);
    FloorBounds(x, y, ONE_E18);
    FloorBounds(x, x, ONE_E18);
    FloorBounds(y, y, ONE_E18);
    FloorBounds(a, b + c, ONE_E18);
    SumTimes(b, c, ONE_E18);
    hide Floor;
    TruncatedProduct(x * y, x * x + y * y, a, b + c, IdealF(x, y), ONE_E18);
  }

  lemma Regroup(x: nat, n: nat, one: nat)
    ensures x * n * one == x * (n * one)
  {}

  /** A product of three, truncated twice. */
  lemma TruncatedTwice(x: nat, p: nat, inner: nat, outer: nat, one: nat)
    requires inner * one <= p <= inner * one + one && outer * one <= x * inner <= outer * one + one
    ensures outer * one * one <= x * p <= (outer + 1) * one * one + x * one
  {
    var q, w := inner * one, outer * one;
    MulMono(w, x * inner, one);
    MulMono(x * inner, w + one, one);
    Regroup(x, inner, one);
    MulMono(q, p, x);
    MulMono(p, q + one, x);
    assert (q + one) * x == x * q + x * one && (w + one) * one == (outer + 1) * one * one;
  }

  /** The denominator of the Newton step is the slope 3*x*y^2 + x^3 of the curve in 1e18 units. */
  lemma StableDIsSlope(x: nat, y: nat)
    requires StableD(x, y).Some?
    ensures StableD(x, y).value * ONE_E18 * ONE_E18 <= 3 * x * (y * y) + x * (x * x)
    ensures 3 * x * (y * y) + x * (x * x) <= (StableD(x, y).value + 2) * ONE_E18 * ONE_E18 + 4 * x * ONE_E18
  {
    var y2, x2 := Floor(y, y, ONE_E18), Floor(x, x, ONE_E18);
    var first, third := Floor(3 * x, y2, ONE_E18), Floor(x2, x, ONE_E18);
    SlopeParts(x, y);
    FloorBounds(y, y, ONE_E18);
    FloorBounds(x, x, ONE_E18);
    FloorBounds(3 * x, y2, ONE_E18);
    FloorBounds(x2, x, ONE_E18);
    hide Floor, StableD;
    TruncatedTwice(3 * x, y * y, y2, first, ONE_E18);
    TruncatedTwice(x, x * x, x2, third, ONE_E18);
  }

  lemma SlopeParts(x: nat, y: nat)
    requires StableD(x, y).Some?
    ensures StableD(x, y).value == Floor(3 * x, Floor(y, y, ONE_E18), ONE_E18) + Floor(Floor(x, x, ONE_E18), x, ONE_E18)
  {
    hide MulDiv, Floor;
  }

  /** The distance a Newton step goes: the difference over the slope, cut off at whole units, or one unit. */
  ghost predicate StepsBy(distance: nat, difference: nat, slope: nat) {
    distance * slope <= difference * ONE_E18 < (distance + 1) * slope || (distance == 1 && difference * ONE_E18 < slope)
  }

  /** A step that goes on goes up from below the curve and down from above it, as far as Newton's method says. */
  lemma NewtonStepMoves(x0: nat, xy: nat, y: nat)
    requires NewtonStep(x0, xy, y).Next?
    ensures var y' := NewtonStep(x0, xy, y).y;
      && StableF(x0, y).Some? && StableD(x0, y).Some?
      && var k, slope := StableF(x0, y).value, StableD(x0, y).value;
         if k < xy then y' > y && StepsBy(y' - y, xy - k, slope)
         else k > xy && y' < y && StepsBy(y - y', k - xy, slope)
  {
    hide StableF, StableD;
    var k, slope := StableF(x0, y).value, StableD(x0, y).value;
    DivBounds((if k < xy then xy - k else k - xy) * ONE_E18, slope);
  }

  /** A step of less than a unit looks at the neighbour: it ends on the upper of the two when the curve passes between
      them, or on the point itself when that hits it, and otherwise moves on by one. */
  lemma NewtonStepNearby(x0: nat, xy: nat, y: nat)
    requires StableF(x0, y).Some? && StableD(x0, y).Some? && StableD(x0, y).value > 0
    ensures var k, slope := StableF(x0, y).value, StableD(x0, y).value;
      && (k == xy ==> NewtonStep(x0, xy, y) == Done(y))
      && (k < xy && (xy - k) * ONE_E18 < slope <= U256_MAX && y < U256_MAX && StableF(x0, y + 1).Some? ==>
            NewtonStep(x0, xy, y) == if StableF(x0, y + 1).value > xy then Done(y + 1) else Next(y + 1))
      && (k > xy && (k - xy) * ONE_E18 < slope <= U256_MAX && y > 0 && StableF(x0, y - 1).Some? ==>
            NewtonStep(x0, xy, y) == if StableF(x0, y - 1).value < xy then Done(y) else Next(y - 1))
  {
    hide StableF, StableD;
    var k, slope := StableF(x0, y).value, StableD(x0, y).value;
    if k < xy && (xy - k) * ONE_E18 < slope <= U256_MAX {
      MulDivIs(xy - k, ONE_E18, slope, 0);
    } else if k >= xy && (k - xy) * ONE_E18 < slope <= U256_MAX {
      MulDivIs(k - xy, ONE_E18, slope, 0);
    }
  }

  /** The solver's answer is the least point that reaches the curve, unless it hits it exactly. */
  lemma LeastOnCurve(x0: nat, xy: nat, y: nat, lower: nat)
    requires OnCurve(x0, xy, y) && lower < y
    ensures IdealF(x0, lower) <= IdealF(x0, y)
    ensures IdealF(x0, lower) < xy || IdealF(x0, lower) == xy == IdealF(x0, y)
  {
    IdealFMono(x0, lower, x0, y);
    IdealFMono(x0, lower, x0, y - 1);
    hide IdealF, StableF;
    IdealAgrees(x0, y);
    IdealAgrees(x0, y - 1);
  }

  // ----- quotes

  /** `amount_in_after_fee` */
  function AmountInAfterFee(amountIn: nat, feePpm: nat): (r: Option<nat>)
    ensures r.Some? ==> r.value <= amountIn
  {
    if feePpm >= 1_000_000 then None
    else
      MulMono(1_000_000 - feePpm, 1_000_000, amountIn);
      Some(SatMul(amountIn, 1_000_000 - feePpm) / 1_000_000)
  }

  /** What is left after the fee: the whole units of the share that is not charged. Where the product
      saturates, a millionth of the largest 128-bit number. */
  lemma FeeIsCharged(amountIn: nat, feePpm: nat)
    ensures AmountInAfterFee(amountIn, feePpm).None? <==> feePpm >= 1_000_000
    ensures feePpm < 1_000_000 ==>
      var net, share := AmountInAfterFee(amountIn, feePpm).value, amountIn * (1_000_000 - feePpm);
      if share <= U128_MAX then net * 1_000_000 <= share < (net + 1) * 1_000_000
      else net == U128_MAX / 1_000_000
  {
    if feePpm < 1_000_000 {
      DivBounds(amountIn * (1_000_000 - feePpm), 1_000_000);
    }
  }

  datatype Scaled = Scaled(xy: nat, reserveIn: nat, reserveOut: nat, amountIn: nat)

  /** The inputs of the solver: the invariant and the three amounts in 1e18 units. */
  function ScaleInputs(amountIn: nat, reserveIn: nat, reserveOut: nat, decimalsIn: nat, decimalsOut: nat): Option<Scaled> {
    var xy :- StableK(reserveIn, reserveOut, decimalsIn, decimalsOut);
    var x :- MulDiv(reserveIn, ONE_E18, decimalsIn);
    var y :- MulDiv(reserveOut, ONE_E18, decimalsOut);
    var a :- MulDiv(amountIn, ONE_E18, decimalsIn);
    var sum :- CheckedAdd(x, a);
    Some(Scaled(xy, x, y, a))
  }

  /** `dy_scaled` back in raw units, if it fits 128 bits. */
  function UnscaleOutput(reserveOutScaled: nat, y: nat, decimalsOut: nat): Option<nat> {
    var dy :- CheckedSub(reserveOutScaled, y);
    var out :- MulDiv(dy, decimalsOut, ONE_E18);
    if out <= U128_MAX then Some(out) else None
  }

  /** `stable_quote` */
  method StableQuote(amountIn: nat, reserveIn: nat, reserveOut: nat, decimalsIn: nat, decimalsOut: nat)
    returns (r: Option<nat>)
    ensures r == StableQuoteOf(amountIn, reserveIn, reserveOut, decimalsIn, decimalsOut)
  {
    hide ScaleInputs, UnscaleOutput, Iterate;
    if decimalsIn == 0 || decimalsOut == 0 {
      return None;
    }
    var scaled := ScaleInputs(amountIn, reserveIn, reserveOut, decimalsIn, decimalsOut);
    if scaled.None? {
      return None;
    }
    var Scaled(xy, x, y, a) := scaled.value;
    var solved := SolveStableY(x + a, xy, y);
    if solved.None? {
      return None;
    }
    return UnscaleOutput(y, solved.value, decimalsOut);
  }

  function StableQuoteOf(amountIn: nat, reserveIn: nat, reserveOut: nat, decimalsIn: nat, decimalsOut: nat): Option<nat> {
    if decimalsIn == 0 || decimalsOut == 0 then None
    else
      var s :- ScaleInputs(amountIn, reserveIn, reserveOut, decimalsIn, decimalsOut);
      var y :- Iterate(NewtonSteps(s.reserveIn + s.amountIn, s.xy), s.reserveOut, 255);
      UnscaleOutput(s.reserveOut, y, decimalsOut)
  }

  lemma ScaledFacts(amountIn: nat, reserveIn: nat, reserveOut: nat, decimalsIn: nat, decimalsOut: nat)
    requires ScaleInputs(amountIn, reserveIn, reserveOut, decimalsIn, decimalsOut).Some?
    ensures decimalsIn > 0 && decimalsOut > 0
    ensures var s := ScaleInputs(amountIn, reserveIn, reserveOut, decimalsIn, decimalsOut).value;
      && s.xy == IdealK(reserveIn, reserveOut, decimalsIn, decimalsOut)
      && s.reserveIn == Floor(reserveIn, ONE_E18, decimalsIn)
      && s.reserveOut == Floor(reserveOut, ONE_E18, decimalsOut)
      && s.amountIn == Floor(amountIn, ONE_E18, decimalsIn)
  {
    IdealKAgrees(reserveIn, reserveOut, decimalsIn, decimalsOut);
    assert decimalsIn > 0 && decimalsOut > 0;
    hide StableK, IdealK;
  }

  /** Scaling each part down loses at least as much as scaling the sum down. */
  lemma FloorSuperadditive(a: nat, b: nat, m: nat, d: nat)
    requires d > 0
    ensures Floor(a, m, d) + Floor(b, m, d) <= Floor(a + b, m, d)
  {
    assert (a + b) * m == a * m + b * m;
    DivBounds(a * m, d);
    DivBounds(b * m, d);
    DivBounds((a + b) * m, d);
    SumOfQuotients(a * m / d, b * m / d, (a + b) * m / d, a * m, b * m, d);
  }

  lemma SumOfQuotients(p: int, q: int, r: int, a: int, b: int, d: int)
    requires d > 0 && p * d <= a && q * d <= b && a + b < (r + 1) * d
    ensures p + q <= r
  {
    assert (p + q) * d == p * d + q * d;
    QuotientMono(p + q, r, a + b, a + b, d);
  }

  /** Taking out the unscaled output leaves at least the solved point, after scaling again. */
  lemma RoundTripKeepsPoint(reserveOut: nat, y: nat, decimals: nat, out: nat)
    requires decimals > 0 && y <= Floor(reserveOut, ONE_E18, decimals)
    requires out == Floor(Floor(reserveOut, ONE_E18, decimals) - y, decimals, ONE_E18)
    ensures out <= reserveOut
    ensures Floor(reserveOut - out, ONE_E18, decimals) >= y
  {
    var scaled := Floor(reserveOut, ONE_E18, decimals);
    DivBounds(reserveOut * ONE_E18, decimals);
    DivBounds((scaled - y) * decimals, ONE_E18);
    assert scaled * decimals <= reserveOut * ONE_E18;
    assert out * ONE_E18 <= (scaled - y) * decimals;
    assert (scaled - y) * decimals == scaled * decimals - y * decimals;
    MulSign(y, decimals);
    assert y * decimals <= (reserveOut - out) * ONE_E18;
    assert out <= reserveOut;
    DivBounds((reserveOut - out) * ONE_E18, decimals);
    QuotientMono(y, (reserveOut - out) * ONE_E18 / decimals, (reserveOut - out) * ONE_E18, (reserveOut - out) * ONE_E18, decimals);
  }

  lemma UnscaledFacts(reserveOut: nat, y: nat, decimals: nat)
    requires UnscaleOutput(reserveOut, y, decimals).Some?
    ensures y <= reserveOut
    ensures UnscaleOutput(reserveOut, y, decimals).value == Floor(reserveOut - y, decimals, ONE_E18)
  {}

  /** The solved point behind a successful quote. */
  lemma QuoteParts(amountIn: nat, reserveIn: nat, reserveOut: nat, decimalsIn: nat, decimalsOut: nat)
    returns (s: Scaled, y: nat)
    requires StableQuoteOf(amountIn, reserveIn, reserveOut, decimalsIn, decimalsOut).Some?
    ensures ScaleInputs(amountIn, reserveIn, reserveOut, decimalsIn, decimalsOut) == Some(s)
    ensures OnCurve(s.reserveIn + s.amountIn, s.xy, y)
    ensures UnscaleOutput(s.reserveOut, y, decimalsOut)
         == StableQuoteOf(amountIn, reserveIn, reserveOut, decimalsIn, decimalsOut)
  {
    hide ScaleInputs, UnscaleOutput, OnCurve, Iterate;
    s := ScaleInputs(amountIn, reserveIn, reserveOut, decimalsIn, decimalsOut).value;
    y := Iterate(NewtonSteps(s.reserveIn + s.amountIn, s.xy), s.reserveOut, 255).value;
    NewtonLandsOnCurve(s.reserveIn + s.amountIn, s.xy, s.reserveOut, 255);
  }

  lemma OnCurveReaches(x0: nat, xy: nat, y: nat)
    requires OnCurve(x0, xy, y)
    ensures IdealF(x0, y) >= xy
  {
    IdealAgrees(x0, y);
  }

  /** A stable quote never lets the invariant of the raw reserves fall. */
  lemma StableQuoteKeepsK(amountIn: nat, reserveIn: nat, reserveOut: nat, decimalsIn: nat, decimalsOut: nat)
    requires StableQuoteOf(amountIn, reserveIn, reserveOut, decimalsIn, decimalsOut).Some?
    ensures decimalsIn > 0 && decimalsOut > 0
    ensures var out := StableQuoteOf(amountIn, reserveIn, reserveOut, decimalsIn, decimalsOut).value;
      && out <= reserveOut
      && IdealK(reserveIn + amountIn, reserveOut - out, decimalsIn, decimalsOut)
           >= IdealK(reserveIn, reserveOut, decimalsIn, decimalsOut)
  {
    hide Floor, IdealF, OnCurve, ScaleInputs, UnscaleOutput, StableQuoteOf;
    var s, y := QuoteParts(amountIn, reserveIn, reserveOut, decimalsIn, decimalsOut);
    ScaledFacts(amountIn, reserveIn, reserveOut, decimalsIn, decimalsOut);
    OnCurveReaches(s.reserveIn + s.amountIn, s.xy, y);
    FloorSuperadditive(reserveIn, amountIn, ONE_E18, decimalsIn);
    UnscaledFacts(s.reserveOut, y, decimalsOut);
    var out := UnscaleOutput(s.reserveOut, y, decimalsOut).value;
    RoundTripKeepsPoint(reserveOut, y, decimalsOut, out);
    IdealFMono(s.reserveIn + s.amountIn, y,
               Floor(reserveIn + amountIn, ONE_E18, decimalsIn), Floor(reserveOut - out, ONE_E18, decimalsOut));
  }

  /** Taking a unit more than the unscaled output, and then at least a 1e18th of a token, goes below the
      solved point. */
  lemma MoreGoesBelow(reserveOut: nat, y: nat, decimals: nat, out: nat, more: nat)
    requires decimals > 0 && y <= Floor(reserveOut, ONE_E18, decimals)
    requires out == Floor(Floor(reserveOut, ONE_E18, decimals) - y, decimals, ONE_E18)
    requires more * ONE_E18 >= decimals && out + 1 + more <= reserveOut
    ensures Floor(reserveOut - out - 1 - more, ONE_E18, decimals) < y
  {
    var scaled, rest := Floor(reserveOut, ONE_E18, decimals), reserveOut - out - 1 - more;
    var z := Floor(rest, ONE_E18, decimals);
    FloorBounds(reserveOut, ONE_E18, decimals);
    FloorBounds(scaled - y, decimals, ONE_E18);
    FloorBounds(rest, ONE_E18, decimals);
    hide Floor;
    assert (scaled - y) * decimals == scaled * decimals - y * decimals;
    assert (scaled + 1) * decimals == scaled * decimals + decimals;
    assert rest * ONE_E18 == reserveOut * ONE_E18 - (out + 1) * ONE_E18 - more * ONE_E18;
    assert z * decimals < y * decimals;
    if z >= y {
      MulMono(y, z, decimals);
    }
  }

  /** A stable quote pays as much as the invariant allows, up to the rounding of one unit and the next
      1e18th of a token: any larger payment puts the point of the curve at or below the old invariant. */
  lemma StableQuoteIsTight(amountIn: nat, reserveIn: nat, reserveOut: nat, decimalsIn: nat, decimalsOut: nat, more: nat)
    requires StableQuoteOf(amountIn, reserveIn, reserveOut, decimalsIn, decimalsOut).Some?
    requires more * ONE_E18 >= decimalsOut
    ensures decimalsIn > 0 && decimalsOut > 0
    ensures var out := StableQuoteOf(amountIn, reserveIn, reserveOut, decimalsIn, decimalsOut).value;
      out + 1 + more <= reserveOut ==>
        IdealF(Floor(reserveIn, ONE_E18, decimalsIn) + Floor(amountIn, ONE_E18, decimalsIn),
               Floor(reserveOut - out - 1 - more, ONE_E18, decimalsOut))
          <= IdealK(reserveIn, reserveOut, decimalsIn, decimalsOut)
  {
    hide Floor, IdealF, OnCurve, ScaleInputs, UnscaleOutput, StableQuoteOf, IdealK;
    var s, y := QuoteParts(amountIn, reserveIn, reserveOut, decimalsIn, decimalsOut);
    ScaledFacts(amountIn, reserveIn, reserveOut, decimalsIn, decimalsOut);
    UnscaledFacts(s.reserveOut, y, decimalsOut);
    var out := UnscaleOutput(s.reserveOut, y, decimalsOut).value;
    if out + 1 + more <= reserveOut {
      MoreGoesBelow(reserveOut, y, decimalsOut, out, more);
      LeastOnCurve(s.reserveIn + s.amountIn, s.xy, y, Floor(reserveOut - out - 1 - more, ONE_E18, decimalsOut));
    }
  }

  lemma QuoteHasInvariant(amountIn: nat, reserveIn: nat, reserveOut: nat, decimalsIn: nat, decimalsOut: nat)
    requires StableQuoteOf(amountIn, reserveIn, reserveOut, decimalsIn, decimalsOut).Some?
    ensures StableK(reserveIn, reserveOut, decimalsIn, decimalsOut).Some?
  {
    hide StableK, Iterate, NewtonSteps, UnscaleOutput, MulDiv;
  }

  /** The same for the checked invariant, whenever it can still be computed afterwards. */
  lemma StableQuoteKeepsCheckedK(amountIn: nat, reserveIn: nat, reserveOut: nat, decimalsIn: nat, decimalsOut: nat)
    requires StableQuoteOf(amountIn, reserveIn, reserveOut, decimalsIn, decimalsOut).Some?
    ensures var out := StableQuoteOf(amountIn, reserveIn, reserveOut, decimalsIn, decimalsOut).value;
      var before := StableK(reserveIn, reserveOut, decimalsIn, decimalsOut);
      out <= reserveOut && before.Some? &&
      (StableK(reserveIn + amountIn, reserveOut - out, decimalsIn, decimalsOut).Some? ==>
         StableK(reserveIn + amountIn, reserveOut - out, decimalsIn, decimalsOut).value >= before.value)
  {
    hide IdealK, StableK, StableQuoteOf;
    QuoteHasInvariant(amountIn, reserveIn, reserveOut, decimalsIn, decimalsOut);
    StableQuoteKeepsK(amountIn, reserveIn, reserveOut, decimalsIn, decimalsOut);
    var out := StableQuoteOf(amountIn, reserveIn, reserveOut, decimalsIn, decimalsOut).value;
    IdealKAgrees(reserveIn, reserveOut, decimalsIn, decimalsOut);
    IdealKAgrees(reserveIn + amountIn, reserveOut - out, decimalsIn, decimalsOut);
  }

  /** An input too small to count in 1e18 units buys nothing. */
  lemma DustBuysNothing(amountIn: nat, reserveIn: nat, reserveOut: nat, decimalsIn: nat, decimalsOut: nat)
    requires StableQuoteOf(amountIn, reserveIn, reserveOut, decimalsIn, decimalsOut).Some?
    requires decimalsIn > 0 && Floor(amountIn, ONE_E18, decimalsIn) == 0
    ensures StableQuoteOf(amountIn, reserveIn, reserveOut, decimalsIn, decimalsOut) == Some(0)
  {
    hide Floor, StableF, StableK, ScaleInputs, Iterate, NewtonSteps;
    var s := ScaleInputs(amountIn, reserveIn, reserveOut, decimalsIn, decimalsOut).value;
    ScaledFacts(amountIn, reserveIn, reserveOut, decimalsIn, decimalsOut);
    ScaledOnCurve(amountIn, reserveIn, reserveOut, decimalsIn, decimalsOut);
    FixedPoint(s.reserveIn + s.amountIn, s.xy, s.reserveOut);
  }

  lemma ScaledOnCurve(amountIn: nat, reserveIn: nat, reserveOut: nat, decimalsIn: nat, decimalsOut: nat)
    requires ScaleInputs(amountIn, reserveIn, reserveOut, decimalsIn, decimalsOut).Some?
    ensures var s := ScaleInputs(amountIn, reserveIn, reserveOut, decimalsIn, decimalsOut).value;
      StableF(s.reserveIn, s.reserveOut) == Some(s.xy)
  {
    hide StableF, MulDiv;
  }

  /** Started on the curve, the solver stays where it is or fails. */
  lemma FixedPoint(x0: nat, xy: nat, y: nat)
    requires StableF(x0, y) == Some(xy)
    ensures NewtonStep(x0, xy, y) == Done(y) || NewtonStep(x0, xy, y) == Fail
    ensures Iterate(NewtonSteps(x0, xy), y, 255).Some? ==> Iterate(NewtonSteps(x0, xy), y, 255).value == y
  {
    hide StableF, StableD;
    assert NewtonSteps(x0, xy)(y) == NewtonStep(x0, xy, y);
  }

  const EXAMPLE_IN: nat := 1_000_000_000_000
  const EXAMPLE_Y: nat := 999_999_000_000_000_001

  lemma MulDivIs(a: nat, b: nat, d: nat, q: nat)
    requires d > 0 && a * b <= U256_MAX && q * d <= a * b < (q + 1) * d
    ensures MulDiv(a, b, d) == Some(q)
  {
    DivBounds(a * b, d);
    QuotientMono(q, a * b / d, a * b, a * b, d);
    QuotientMono(a * b / d, q, a * b, a * b, d);
  }

  /** The value of the curve from its truncated parts. */
  lemma StableFIs(x: nat, y: nat, xy: nat, x2: nat, y2: nat, f: nat)
    requires x * y <= U256_MAX && xy * ONE_E18 <= x * y < (xy + 1) * ONE_E18
    requires x * x <= U256_MAX && x2 * ONE_E18 <= x * x < (x2 + 1) * ONE_E18
    requires y * y <= U256_MAX && y2 * ONE_E18 <= y * y < (y2 + 1) * ONE_E18
    requires x2 + y2 <= U256_MAX && xy * (x2 + y2) <= U256_MAX
    requires f * ONE_E18 <= xy * (x2 + y2) < (f + 1) * ONE_E18
    ensures StableF(x, y) == Some(f)
  {
    MulDivIs(x, y, ONE_E18, xy);
    MulDivIs(x, x, ONE_E18, x2);
    MulDivIs(y, y, ONE_E18, y2);
    MulDivIs(xy, x2 + y2, ONE_E18, f);
    hide MulDiv;
  }

  /** Its slope likewise. */
  lemma StableDIs(x: nat, y: nat, y2: nat, first: nat, x2: nat, x3: nat)
    requires y * y <= U256_MAX && y2 * ONE_E18 <= y * y < (y2 + 1) * ONE_E18
    requires 3 * x * y2 <= U256_MAX && 3 * x <= U256_MAX && first * ONE_E18 <= 3 * x * y2 < (first + 1) * ONE_E18
    requires x * x <= U256_MAX && x2 * ONE_E18 <= x * x < (x2 + 1) * ONE_E18
    requires x2 * x <= U256_MAX && x3 * ONE_E18 <= x2 * x < (x3 + 1) * ONE_E18 && first + x3 <= U256_MAX
    ensures StableD(x, y) == Some(first + x3)
  {
    MulDivIs(y, y, ONE_E18, y2);
    MulDivIs(3 * x, y2, ONE_E18, first);
    MulDivIs(x, x, ONE_E18, x2);
    MulDivIs(x2, x, ONE_E18, x3);
    hide MulDiv;
  }

  /** A balanced pool of one token each gets a millionth of a token: two steps down, and the third stays. */
  lemma FirstExampleStep()
    ensures NewtonStep(ONE_E18 + EXAMPLE_IN, 2 * ONE_E18, 1_000_000_000_000_000_000) == Next(999_999_000_000_750_000)
  {
    var x := ONE_E18 + EXAMPLE_IN;
    StableFIs(x, 1_000_000_000_000_000_000, 1_000_001_000_000_000_000, 1_000_002_000_001_000_000, 1_000_000_000_000_000_000, 2_000_004_000_003_000_001);
    StableDIs(x, 1_000_000_000_000_000_000, 1_000_000_000_000_000_000, 3_000_003_000_000_000_000, 1_000_002_000_001_000_000, 1_000_003_000_003_000_001);
    MulDivIs(2_000_004_000_003_000_001 - 2 * ONE_E18, ONE_E18, 4_000_006_000_003_000_001, 999_999_250_000);
    hide StableF, StableD, MulDiv;
  }

  lemma SecondExampleStep()
    ensures NewtonStep(ONE_E18 + EXAMPLE_IN, 2 * ONE_E18, 999_999_000_000_750_000) == Next(EXAMPLE_Y)
  {
    var x := ONE_E18 + EXAMPLE_IN;
    StableFIs(x, 999_999_000_000_750_000, 999_999_999_999_750_000, 1_000_002_000_001_000_000, 999_998_000_002_499_998, 2_000_000_000_002_999_997);
    StableDIs(x, 999_999_000_000_750_000, 999_998_000_002_499_998, 2_999_997_000_001_500_001, 1_000_002_000_001_000_000, 1_000_003_000_003_000_001);
    MulDivIs(2_000_000_000_002_999_997 - 2 * ONE_E18, ONE_E18, 4_000_000_000_004_500_002, 749_999);
    hide StableF, StableD, MulDiv;
  }

  lemma LastExampleStep()
    ensures NewtonStep(ONE_E18 + EXAMPLE_IN, 2 * ONE_E18, EXAMPLE_Y) == Done(EXAMPLE_Y)
  {
    var x := ONE_E18 + EXAMPLE_IN;
    StableFIs(x, 999_999_000_000_000_001, 999_999_999_999_000_001, 1_000_002_000_001_000_000, 999_998_000_001_000_001, 2_000_000_000_000_000_002);
    StableDIs(x, 999_999_000_000_000_001, 999_998_000_001_000_001, 2_999_996_999_997_000_006, 1_000_002_000_001_000_000, 1_000_003_000_003_000_001);
    StableFIs(x, 999_999_000_000_000_000, 999_999_999_999_000_000, 1_000_002_000_001_000_000, 999_998_000_001_000_000, 1_999_999_999_999_999_999);
    MulDivIs(2_000_000_000_000_000_002 - 2 * ONE_E18, ONE_E18, 4_000_000_000_000_000_007, 0);
    hide StableF, StableD, MulDiv;
  }

  /** The pool pays what it got, less one unit. */
  lemma StableExample()
    ensures StableQuoteOf(EXAMPLE_IN, ONE_E18, ONE_E18, ONE_E18, ONE_E18) == Some(EXAMPLE_IN - 1)
  {
    var step := NewtonSteps(ONE_E18 + EXAMPLE_IN, 2 * ONE_E18);
    FirstExampleStep();
    SecondExampleStep();
    LastExampleStep();
    hide NewtonStep;
    assert Iterate(step, ONE_E18, 255) == Iterate(step, 999_999_000_000_750_000, 254) == Iterate(step, EXAMPLE_Y, 253) == Some(EXAMPLE_Y);
    MulDivIs(ONE_E18, ONE_E18, ONE_E18, ONE_E18);
    MulDivIs(EXAMPLE_IN, ONE_E18, ONE_E18, EXAMPLE_IN);
    MulDivIs(EXAMPLE_IN - 1, ONE_E18, ONE_E18, EXAMPLE_IN - 1);
    StableFIs(ONE_E18, ONE_E18, ONE_E18, ONE_E18, ONE_E18, 2 * ONE_E18);
    hide Iterate, NewtonSteps, MulDiv, StableF;
    assert ScaleInputs(EXAMPLE_IN, ONE_E18, ONE_E18, ONE_E18, ONE_E18) == Some(Scaled(2 * ONE_E18, ONE_E18, ONE_E18, EXAMPLE_IN));
  }

  // ----- the volatile branch and the whole quote

  function VolatileQuote(amountIn: nat, reserveIn: nat, reserveOut: nat): nat
    requires reserveIn > 0
  {
    SatMul(amountIn, reserveOut) / SatAdd(reserveIn, amountIn)
  }

  /** Exactly when the saturating quote pays out more than the product curve allows: the
      grown reserve overflows 128 bits while the numerator saturates below it. */
  predicate SaturationLeaks(amountIn: nat, reserveIn: nat, reserveOut: nat) {
    reserveIn + amountIn > U128_MAX && U128_MAX <= amountIn * reserveOut < reserveIn + amountIn
  }

  lemma VolatileQuoteKeepsProduct(amountIn: nat, reserveIn: nat, reserveOut: nat)
    requires 0 < reserveIn && 0 < reserveOut
    ensures var out := VolatileQuote(amountIn, reserveIn, reserveOut);
      && out <= reserveOut
      && ((reserveIn + amountIn) * (reserveOut - out) >= reserveIn * reserveOut
          <==> !SaturationLeaks(amountIn, reserveIn, reserveOut))
  {
    var d, product := reserveIn + amountIn, amountIn * reserveOut;
    var out := VolatileQuote(amountIn, reserveIn, reserveOut);
    DivBounds(SatMul(amountIn, reserveOut), SatAdd(reserveIn, amountIn));
    if d <= U128_MAX {
      assert out * d <= product;
      assert product + reserveIn * reserveOut == d * reserveOut;
      MulSign(reserveOut - out, d);
      assert d * (reserveOut - out) == d * reserveOut - d * out;
    } else {
      SaturatedQuotient(Min(product, U128_MAX), out);
      assert d * (reserveOut - 1) == reserveIn * reserveOut + product - d;
      assert d * reserveOut == reserveIn * reserveOut + product;
    }
  }

  /** `quote_exact_in` */
  method QuoteExactIn(state: PoolState, zeroForOne: bool, amountIn: nat) returns (r: Option<nat>)
    ensures r == QuoteExactInOf(state, zeroForOne, amountIn)
  {
    hide StableQuoteOf;
    if amountIn == 0 {
      return Some(0);
    }
    var net := AmountInAfterFee(amountIn, state.feePpm);
    if net.None? {
      return None;
    }
    if net.value == 0 {
      return Some(0);
    }
    var (reserveIn, reserveOut, decimalsIn, decimalsOut) := OrientedReserves(state, zeroForOne);
    if reserveIn == 0 || reserveOut == 0 {
      return None;
    }
    if state.stable {
      r := StableQuote(net.value, reserveIn, reserveOut, decimalsIn, decimalsOut);
    } else {
      r := Some(VolatileQuote(net.value, reserveIn, reserveOut));
    }
  }

  function OrientedReserves(state: PoolState, zeroForOne: bool): (nat, nat, nat, nat) {
    if zeroForOne then (state.reserve0, state.reserve1, state.decimals0, state.decimals1)
    else (state.reserve1, state.reserve0, state.decimals1, state.decimals0)
  }

  function QuoteExactInOf(state: PoolState, zeroForOne: bool, amountIn: nat): Option<nat> {
    if amountIn == 0 then Some(0)
    else
      var net :- AmountInAfterFee(amountIn, state.feePpm);
      var (reserveIn, reserveOut, decimalsIn, decimalsOut) := OrientedReserves(state, zeroForOne);
      if net == 0 then Some(0)
      else if reserveIn == 0 || reserveOut == 0 then None
      else if state.stable then StableQuoteOf(net, reserveIn, reserveOut, decimalsIn, decimalsOut)
      else Some(VolatileQuote(net, reserveIn, reserveOut))
  }

  const LEAK_STATE: PoolState := PoolState(U128_MAX, 1_000_001, 1, 1, false, 0)

  /** `2^128 - 1` divided by a million. */
  const LEAK_NET: nat := U128_MAX / 1_000_000

  /** What a quote adds to the input reserve: nothing for an empty input. */
  function NetInput(state: PoolState, amountIn: nat): Option<nat> {
    if amountIn == 0 then Some(0) else AmountInAfterFee(amountIn, state.feePpm)
  }

  /** A volatile pool keeps the product of its reserves in every successful quote but those that leak. */
  lemma VolatilePoolLosesIff(state: PoolState, zeroForOne: bool, amountIn: nat)
    requires !state.stable && QuoteExactInOf(state, zeroForOne, amountIn).Some?
    ensures NetInput(state, amountIn).Some?
    ensures var out, net := QuoteExactInOf(state, zeroForOne, amountIn).value, NetInput(state, amountIn).value;
      var (reserveIn, reserveOut, _, _) := OrientedReserves(state, zeroForOne);
      && out <= reserveOut
      && ((reserveIn + net) * (reserveOut - out) >= reserveIn * reserveOut <==> !SaturationLeaks(net, reserveIn, reserveOut))
  {
    hide VolatileQuote, StableQuoteOf, AmountInAfterFee;
    var net := NetInput(state, amountIn).value;
    var (reserveIn, reserveOut, _, _) := OrientedReserves(state, zeroForOne);
    if net > 0 {
      VolatileQuoteKeepsProduct(net, reserveIn, reserveOut);
    }
  }

  /** A volatile pool and an amount of 128 bits for which the quote leaks: the saturating fee leaves a
      millionth of the input, one unit is paid out for it, and the product of the reserves falls. */
  lemma VolatileLeakExample()
    ensures AmountInAfterFee(U128_MAX, LEAK_STATE.feePpm) == Some(LEAK_NET)
    ensures QuoteExactInOf(LEAK_STATE, true, U128_MAX) == Some(1)
    ensures SaturationLeaks(LEAK_NET, LEAK_STATE.reserve0, LEAK_STATE.reserve1)
    ensures (LEAK_STATE.reserve0 + LEAK_NET) * (LEAK_STATE.reserve1 - 1) < LEAK_STATE.reserve0 * LEAK_STATE.reserve1
  {
    assert U128_MAX == LEAK_NET * 1_000_000 + 211_455;
    SaturatedQuotient(SatMul(LEAK_NET, LEAK_STATE.reserve1), VolatileQuote(LEAK_NET, LEAK_STATE.reserve0, LEAK_STATE.reserve1));
  }

  /** The reserves a swap adds to and takes from. */
  function ReserveIn(state: PoolState, zeroForOne: bool): nat {
    if zeroForOne then state.reserve0 else state.reserve1
  }

  function ReserveOut(state: PoolState, zeroForOne: bool): nat {
    ReserveIn(state, !zeroForOne)
  }

  lemma VolatileQuotient(net: nat, reserveIn: nat, reserveOut: nat)
    requires reserveIn > 0 && net * reserveOut <= U128_MAX && reserveIn + net <= U128_MAX
    ensures var out := VolatileQuote(net, reserveIn, reserveOut);
      out * (reserveIn + net) <= net * reserveOut < (out + 1) * (reserveIn + net)
  {
    DivBounds(net * reserveOut, reserveIn + net);
  }

  lemma UpperShare(out: nat, reserveIn: nat, reserveOut: nat, net: nat, share: nat, ppm: nat)
    requires out * (reserveIn + net) <= net * reserveOut && out <= reserveOut && net * ppm <= share
    ensures out * (reserveIn * ppm + share) <= share * reserveOut
  {
    var rest := reserveOut - out;
    assert out * (reserveIn + net) == out * reserveIn + out * net && net * reserveOut == net * out + net * rest;
    MulMono(out * reserveIn, net * rest, ppm);
    MulMono(net * ppm, share, rest);
    assert net * rest * ppm == net * ppm * rest;
    assert out * (reserveIn * ppm + share) == out * reserveIn * ppm + out * share;
    assert share * reserveOut == share * out + share * rest;
  }

  lemma PaidPart(m: nat, reserveIn: nat, net: nat, rest: nat)
    requires net * (m + rest) < m * (reserveIn + net)
    ensures net * rest < m * reserveIn
  {
    assert net * (m + rest) == net * m + net * rest && m * (reserveIn + net) == m * reserveIn + m * net;
  }

  lemma ScaledPart(a: int, b: int, more: int, net: nat, rest: nat, ppm: nat)
    requires a == net * rest && a < b && more <= net * ppm && ppm > 0
    ensures more * rest < b * ppm
  {
    ScaleBy(more, net * ppm, rest);
    ScaleStrict(a, b, ppm);
    assert net * ppm * rest == net * rest * ppm;
  }

  lemma LowerShare(out: nat, reserveIn: nat, reserveOut: nat, net: nat, share: nat, ppm: nat)
    requires net * reserveOut < (out + 1) * (reserveIn + net) && out < reserveOut && share < (net + 1) * ppm && ppm > 0
    ensures (share - ppm) * reserveOut < (out + 1) * (reserveIn * ppm + share - ppm)
  {
    var m, rest, more: int := out + 1, reserveOut - out - 1, share - ppm;
    PaidPart(m, reserveIn, net, rest);
    ScaledPart(net * rest, m * reserveIn, more, net, rest, ppm);
    SplitProducts(m, rest, more, reserveIn, ppm);
  }

  lemma SplitProducts(m: nat, rest: nat, more: int, reserveIn: nat, ppm: nat)
    ensures more * (m + rest) == more * m + more * rest
    ensures m * (reserveIn * ppm + more) == m * reserveIn * ppm + more * m
  {}

  lemma ScaleBy(a: int, b: int, c: nat)
    requires a <= b
    ensures a * c <= b * c
  {
    if c > 0 {
      MulSign(b - a, c);
    }
  }

  /** While nothing saturates, a volatile pool pays what the product curve of its reserves gives for the
      share of the input that is not charged, up to one unit of either side. */
  lemma VolatilePoolPays(state: PoolState, zeroForOne: bool, amountIn: nat)
    requires !state.stable && state.feePpm < 1_000_000
    requires ReserveIn(state, zeroForOne) > 0 && ReserveOut(state, zeroForOne) > 0
    requires amountIn * (1_000_000 - state.feePpm) <= U128_MAX && ReserveIn(state, zeroForOne) + amountIn <= U128_MAX
    requires amountIn * ReserveOut(state, zeroForOne) <= U128_MAX
    ensures QuoteExactInOf(state, zeroForOne, amountIn).Some?
    ensures var out, share := QuoteExactInOf(state, zeroForOne, amountIn).value, amountIn * (1_000_000 - state.feePpm);
      var reserveIn, reserveOut := ReserveIn(state, zeroForOne) * 1_000_000, ReserveOut(state, zeroForOne);
      && out * (reserveIn + share) <= share * reserveOut
      && (share - 1_000_000) * reserveOut < (out + 1) * (reserveIn + share - 1_000_000)
  {
    var reserveIn, reserveOut, ppm := ReserveIn(state, zeroForOne), ReserveOut(state, zeroForOne), 1_000_000;
    var share := amountIn * (ppm - state.feePpm);
    MulMono(ppm - state.feePpm, ppm, amountIn);
    FeeIsCharged(amountIn, state.feePpm);
    var net := AmountInAfterFee(amountIn, state.feePpm).value;
    MulMono(net, amountIn, reserveOut);
    VolatileQuotient(net, reserveIn, reserveOut);
    var out := VolatileQuote(net, reserveIn, reserveOut);
    LessThanReserve(out, reserveIn, reserveOut, net);
    UpperShare(out, reserveIn, reserveOut, net, share, ppm);
    LowerShare(out, reserveIn, reserveOut, net, share, ppm);
    hide VolatileQuote, AmountInAfterFee;
    NoInputNoOutput(reserveIn, reserveOut);
  }

  lemma NoInputNoOutput(reserveIn: nat, reserveOut: nat)
    requires reserveIn > 0
    ensures VolatileQuote(0, reserveIn, reserveOut) == 0
    ensures forall feePpm: nat :: feePpm < 1_000_000 ==> AmountInAfterFee(0, feePpm) == Some(0)
  {}

  lemma LessThanReserve(out: nat, reserveIn: nat, reserveOut: nat, net: nat)
    requires reserveIn > 0 && reserveOut > 0 && out * (reserveIn + net) <= net * reserveOut
    ensures out < reserveOut
  {
    assert reserveOut * (reserveIn + net) == reserveOut * reserveIn + net * reserveOut;
    MulSign(reserveOut, reserveIn);
    if out >= reserveOut {
      MulMono(reserveOut, out, reserveIn + net);
    }
  }

  /** Stable pools never lose value: with the fee-adjusted input added and the quoted output
      removed, the invariant of the raw reserves is at least what it was, and so it is
      with the whole input added. */
  lemma StablePoolNeverLoses(state: PoolState, zeroForOne: bool, amountIn: nat)
    requires state.stable && state.decimals0 > 0 && state.decimals1 > 0
    requires QuoteExactInOf(state, zeroForOne, amountIn).Some?
    ensures var out := QuoteExactInOf(state, zeroForOne, amountIn).value;
      var (reserveIn, reserveOut, decimalsIn, decimalsOut) := OrientedReserves(state, zeroForOne);
      && out <= reserveOut
      && (amountIn > 0 ==> AmountInAfterFee(amountIn, state.feePpm).Some?)
      && (amountIn > 0 ==>
           IdealK(reserveIn + AmountInAfterFee(amountIn, state.feePpm).value, reserveOut - out, decimalsIn, decimalsOut)
             >= IdealK(reserveIn, reserveOut, decimalsIn, decimalsOut))
      && IdealK(reserveIn + amountIn, reserveOut - out, decimalsIn, decimalsOut)
           >= IdealK(reserveIn, reserveOut, decimalsIn, decimalsOut)
  {
    hide StableQuoteOf, IdealK, VolatileQuote;
    var out := QuoteExactInOf(state, zeroForOne, amountIn).value;
    var (reserveIn, reserveOut, decimalsIn, decimalsOut) := OrientedReserves(state, zeroForOne);
    if amountIn > 0 {
      var net := AmountInAfterFee(amountIn, state.feePpm).value;
      if net > 0 {
        StableQuoteKeepsK(net, reserveIn, reserveOut, decimalsIn, decimalsOut);
      }
      IdealKMono(reserveIn + net, reserveIn + amountIn, reserveOut - out, decimalsIn, decimalsOut);
      IdealKMono(reserveIn, reserveIn + net, reserveOut - out, decimalsIn, decimalsOut);
    }
  }

  /** And they keep no value back beyond rounding: paying a unit and a 1e18th of a token more would put the
      curve's point at or below the old invariant. */
  lemma StablePoolPays(state: PoolState, zeroForOne: bool, amountIn: nat, more: nat)
    requires state.stable && state.decimals0 > 0 && state.decimals1 > 0
    requires QuoteExactInOf(state, zeroForOne, amountIn).Some?
    requires more * ONE_E18 >= (if zeroForOne then state.decimals1 else state.decimals0)
    ensures NetInput(state, amountIn).Some?
    ensures var out, net := QuoteExactInOf(state, zeroForOne, amountIn).value, NetInput(state, amountIn).value;
      var decimalsIn := if zeroForOne then state.decimals0 else state.decimals1;
      var decimalsOut := if zeroForOne then state.decimals1 else state.decimals0;
      var reserveIn, reserveOut := ReserveIn(state, zeroForOne), ReserveOut(state, zeroForOne);
      out + 1 + more <= reserveOut ==>
        IdealF(Floor(reserveIn, ONE_E18, decimalsIn) + Floor(net, ONE_E18, decimalsIn),
               Floor(reserveOut - out - 1 - more, ONE_E18, decimalsOut))
          <= IdealK(reserveIn, reserveOut, decimalsIn, decimalsOut)
  {
    hide StableQuoteOf, IdealF, Floor, VolatileQuote, AmountInAfterFee;
    var out, net := QuoteExactInOf(state, zeroForOne, amountIn).value, NetInput(state, amountIn).value;
    var (reserveIn, reserveOut, decimalsIn, decimalsOut) := OrientedReserves(state, zeroForOne);
    if net > 0 {
      StableQuoteIsTight(net, reserveIn, reserveOut, decimalsIn, decimalsOut, more);
    } else if 1 + more <= reserveOut {
      NothingScaled(decimalsIn);
      FloorMono(reserveOut - 1 - more, ONE_E18, reserveOut, ONE_E18, decimalsOut);
      IdealFMono(Floor(reserveIn, ONE_E18, decimalsIn), Floor(reserveOut - 1 - more, ONE_E18, decimalsOut),
                 Floor(reserveIn, ONE_E18, decimalsIn), Floor(reserveOut, ONE_E18, decimalsOut));
    }
  }

  lemma NothingScaled(decimals: nat)
    requires decimals > 0
    ensures Floor(0, ONE_E18, decimals) == 0
  {}

  lemma IdealKMono(x: nat, x': nat, y: nat, decimals0: nat, decimals1: nat)
    requires x <= x' && decimals0 > 0 && decimals1 > 0
    ensures IdealK(x, y, decimals0, decimals1) <= IdealK(x', y, decimals0, decimals1)
  {
    hide IdealF, Floor;
    FloorMono(x, ONE_E18, x', ONE_E18, decimals0);
    IdealFMono(Floor(x, ONE_E18, decimals0), Floor(y, ONE_E18, decimals1),
               Floor(x', ONE_E18, decimals0), Floor(y, ONE_E18, decimals1));
  }
}
