/** Closed-form input sizing along a path of constant-product pools (`src/router/fast_sizer.rs`).

    `f64` is read as the real numbers, `sqrt` as an exact root handed in by the caller. */
module FastSizer {
  import opened Common
  import opened RationalCurve
  import opened Sorting
  import opened UniswapV2

  const MAX_SCALE: real := 1000000000000000000000000000000000000000000000000000000000000000000000000000000000000000000000000000000000000000000000000.0
  const MIN_SCALE: real := 1.0 / MAX_SCALE

  // ----- RationalSwap

  function Scale(k: Curve): real {
    RMax(RMax(k.numerator, k.denominatorConst), k.denominatorSlope)
  }

  /** `normalized` */
  function Normalized(k: Curve): Option<Curve> {
    if !Proper(k) then None
    else
      var scale := Scale(k);
      if MIN_SCALE <= scale <= MAX_SCALE then Some(k)
      else Some(Curve(k.numerator / scale, k.denominatorConst / scale, k.denominatorSlope / scale))
  }

  const IDENTITY: Curve := Curve(1.0, 1.0, 0.0)

  /** `from_v2_reserves` */
  function FromV2Reserves(pool: Pool): Option<Curve> {
    if Usable(pool) then Normalized(CurveOf(pool)) else None
  }

  function Compose(first: Curve, next: Curve): Curve {
    Curve(next.numerator * first.numerator,
          next.denominatorConst * first.denominatorConst,
          next.denominatorConst * first.denominatorSlope + next.denominatorSlope * first.numerator)
  }

  /** `then` */
  function Then(first: Curve, next: Curve): Option<Curve> {
    Normalized(Compose(first, next))
  }

  /** Two curves that pay the same for every input. */
  ghost predicate SameOutput(k: Curve, l: Curve) {
    Proper(k) && Proper(l) && forall x: real :: x >= 0.0 ==> Output(k, x) == Output(l, x)
  }

  /** The largest coefficient of a normalised curve is within the bounds. */
  lemma NormalizedInBounds(k: Curve)
    requires Proper(k)
    ensures Normalized(k).Some? && MIN_SCALE <= Scale(Normalized(k).value) <= MAX_SCALE
  {
    var scale := Scale(k);
    if !(MIN_SCALE <= scale <= MAX_SCALE) {
      LargestBecomesOne(k, Normalized(k).value, scale);
    }
  }

  lemma LargestBecomesOne(k: Curve, m: Curve, scale: real)
    requires Proper(k) && scale == Scale(k) > 0.0
    requires m == Curve(k.numerator / scale, k.denominatorConst / scale, k.denominatorSlope / scale)
    ensures Scale(m) == 1.0
  {
    AtMostOne(k.numerator, scale);
    AtMostOne(k.denominatorConst, scale);
    AtMostOne(k.denominatorSlope, scale);
    SelfQuotient(scale);
  }

  lemma SelfQuotient(v: real)
    requires v > 0.0
    ensures v / v == 1.0
  {
    QuotientTimes(v, v);
    ProductSign(v / v - 1.0, v);
  }

  lemma AtMostOne(v: real, scale: real)
    requires scale > 0.0 && v <= scale
    ensures v / scale <= 1.0
  {
    QuotientTimes(v, scale);
    ProductSign(1.0 - v / scale, scale);
  }

  /** Normalisation succeeds on every proper curve and changes no output. */
  lemma NormalizedKeepsOutput(k: Curve)
    requires Proper(k)
    ensures Normalized(k).Some? && SameOutput(Normalized(k).value, k)
    ensures Normalized(k).value.denominatorSlope > 0.0 <==> k.denominatorSlope > 0.0
  {
    var m, scale := Normalized(k).value, Scale(k);
    if m != k {
      ScaledParts(k, m, scale);
      forall x: real | x >= 0.0 ensures Output(m, x) == Output(k, x) {
        ScaledOutput(k, m, scale, x);
      }
    }
  }

  lemma ScaledParts(k: Curve, m: Curve, scale: real)
    requires Proper(k) && scale > 0.0
    requires m == Curve(k.numerator / scale, k.denominatorConst / scale, k.denominatorSlope / scale)
    ensures Proper(m)
    ensures m.numerator * scale == k.numerator && m.denominatorConst * scale == k.denominatorConst
    ensures m.denominatorSlope * scale == k.denominatorSlope
    ensures m.denominatorSlope > 0.0 <==> k.denominatorSlope > 0.0
  {
    QuotientTimes(k.numerator, scale);
    QuotientTimes(k.denominatorConst, scale);
    QuotientTimes(k.denominatorSlope, scale);
    ProductSign(m.numerator, scale);
    ProductSign(m.denominatorConst, scale);
    ProductSign(m.denominatorSlope, scale);
  }

  lemma ScaledOutput(k: Curve, m: Curve, scale: real, x: real)
    requires Proper(k) && Proper(m) && scale > 0.0 && x >= 0.0
    requires m.numerator * scale == k.numerator && m.denominatorConst * scale == k.denominatorConst
    requires m.denominatorSlope * scale == k.denominatorSlope
    ensures Output(m, x) == Output(k, x)
  {
    hide Output, Denominator;
    var d, e := Denominator(m, x), Denominator(k, x);
    ScaledDenominator(k, m, scale, x);
    assert m.numerator * x * scale == k.numerator * x;
    OutputTimes(m, x);
    OutputTimes(k, x);
    SameRatio(Output(m, x), Output(k, x), m.numerator * x, k.numerator * x, d, e, scale);
  }

  lemma ScaledDenominator(k: Curve, m: Curve, scale: real, x: real)
    requires Proper(k) && Proper(m) && x >= 0.0
    requires m.denominatorConst * scale == k.denominatorConst && m.denominatorSlope * scale == k.denominatorSlope
    ensures Denominator(m, x) * scale == Denominator(k, x)
  {
    assert m.denominatorSlope * x * scale == k.denominatorSlope * x;
  }

  lemma SameRatio(u: real, v: real, p: real, q: real, d: real, e: real, scale: real)
    requires d > 0.0 && e > 0.0 && u * d == p && v * e == q && p * scale == q && d * scale == e
    ensures u == v
  {
    assert u * e == v * e by {
      assert u * e == u * d * scale;
    }
    ProductSign(u - v, e);
    ProductSign(v - u, e);
  }

  /** Composition is exact: the composed curve is the one pool fed with the other's output. */
  lemma ComposeIsComposition(first: Curve, next: Curve, x: real)
    requires Proper(first) && Proper(next) && x >= 0.0
    ensures Proper(Compose(first, next))
    ensures Output(first, x) >= 0.0
    ensures Output(Compose(first, next), x) == Output(next, Output(first, x))
  {
    ComposeIsProper(first, next);
    OutputMonotone(first, 0.0, x);
    ComposedOutput(first, next, x);
  }

  lemma ComposeIsProper(first: Curve, next: Curve)
    requires Proper(first) && Proper(next)
    ensures Proper(Compose(first, next))
    ensures next.denominatorSlope > 0.0 ==> Compose(first, next).denominatorSlope > 0.0
  {
    var a := PositiveProduct(next.numerator, first.numerator);
    var b := PositiveProduct(next.denominatorConst, first.denominatorConst);
    NonNegativeProduct(next.denominatorConst, first.denominatorSlope);
    NonNegativeProduct(next.denominatorSlope, first.numerator);
    ProductSign(next.denominatorSlope, first.numerator);
  }

  lemma ComposedOutput(first: Curve, next: Curve, x: real)
    requires Proper(first) && Proper(next) && Proper(Compose(first, next)) && x >= 0.0 && Output(first, x) >= 0.0
    ensures Output(Compose(first, next), x) == Output(next, Output(first, x))
  {
    hide Output, Denominator;
    var whole, y := Compose(first, next), Output(first, x);
    OutputTimes(first, x);
    OutputTimes(next, y);
    OutputTimes(whole, x);
    WholeDenominator(first, next, x, y);
    ComposedRatio(Output(whole, x), Output(next, y), next.numerator, first.numerator, x, y,
                  Denominator(first, x), Denominator(next, y), Denominator(whole, x));
  }

  ghost predicate IsLine(d: real, c: real, s: real, x: real) {
    d == c + s * x
  }

  /** The second pool gets what the first one pays. */
  ghost predicate Chained(y: real, d: real, n: real, x: real) {
    y * d == n * x
  }

  lemma DenominatorsAreLines(first: Curve, next: Curve, x: real, y: real)
    requires Proper(first) && Proper(next) && Proper(Compose(first, next)) && x >= 0.0 && y >= 0.0
    ensures IsLine(Denominator(first, x), first.denominatorConst, first.denominatorSlope, x)
    ensures IsLine(Denominator(next, y), next.denominatorConst, next.denominatorSlope, y)
    ensures IsLine(Denominator(Compose(first, next), x), next.denominatorConst * first.denominatorConst,
                   next.denominatorConst * first.denominatorSlope + next.denominatorSlope * first.numerator, x)
  {}

  lemma WholeDenominator(first: Curve, next: Curve, x: real, y: real)
    requires Proper(first) && Proper(next) && Proper(Compose(first, next)) && x >= 0.0 && y >= 0.0
    requires Chained(y, Denominator(first, x), first.numerator, x)
    ensures Denominator(Compose(first, next), x) == Denominator(next, y) * Denominator(first, x)
  {
    DenominatorsAreLines(first, next, x, y);
    hide Denominator, Compose, IsLine, Chained, Proper;
    DenominatorAlgebra(next.denominatorConst, next.denominatorSlope, first.denominatorConst, first.denominatorSlope,
                       first.numerator, x, y, Denominator(first, x), Denominator(next, y), Denominator(Compose(first, next), x));
  }

  lemma DenominatorAlgebra(c2: real, s2: real, c1: real, s1: real, n1: real, x: real, y: real, d: real, e: real, w: real)
    requires IsLine(d, c1, s1, x) && IsLine(e, c2, s2, y) && IsLine(w, c2 * c1, c2 * s1 + s2 * n1, x) && Chained(y, d, n1, x)
    ensures w == e * d
  {
    assert (c2 + s2 * y) * d == c2 * d + s2 * (y * d);
    assert c2 * d == c2 * c1 + c2 * s1 * x;
    assert s2 * (n1 * x) == s2 * n1 * x;
  }

  lemma ComposedRatio(u: real, v: real, m: real, n: real, x: real, y: real, D: real, E: real, W: real)
    requires D > 0.0 && E > 0.0 && W == E * D && W > 0.0
    requires y * D == n * x && v * E == m * y && u * W == m * n * x
    ensures u == v
  {
    assert v * W == (v * E) * D;
    assert (m * y) * D == m * (y * D);
    assert m * (n * x) == m * n * x;
    ProductSign(u - v, W);
    ProductSign(v - u, W);
  }

  // ----- the folded path

  /** The pools along a path; `None` is a pool that is missing, of another kind, or of other tokens. */
  type Path = seq<Option<Pool>>

  predicate UsablePath(path: Path) {
    forall i :: 0 <= i < |path| ==> path[i].Some? && Usable(path[i].value)
  }

  /** Hop by hop: each pool is fed with the output of the one before. */
  function PathOutput(path: Path, x: real): (out: real)
    requires UsablePath(path) && x >= 0.0
    ensures out >= 0.0
  {
    if path == [] then x
    else
      var fed := PathOutput(path[..|path| - 1], x);
      OutputMonotone(CurveOf(path[|path| - 1].value), 0.0, fed);
      Output(CurveOf(path[|path| - 1].value), fed)
  }

  ghost predicate ExactFor(path: Path, k: Curve) {
    && UsablePath(path)
    && Proper(k)
    && (path != [] ==> k.denominatorSlope > 0.0)
    && forall x: real :: x >= 0.0 ==> Output(k, x) == PathOutput(path, x)
  }

  lemma IdentityIsExact()
    ensures ExactFor([], IDENTITY)
  {}

  /** Folding in one more pool keeps the curve exact, normalisation included. */
  lemma ThenIsExact(path: Path, k: Curve, pool: Pool)
    requires ExactFor(path, k) && Usable(pool)
    ensures FromV2Reserves(pool).Some?
    ensures Then(k, FromV2Reserves(pool).value).Some?
    ensures ExactFor(path + [Some(pool)], Then(k, FromV2Reserves(pool).value).value)
  {
    hide Output;
    var leg := CurveOf(pool);
    NormalizedKeepsOutput(leg);
    var normal := Normalized(leg).value;
    var whole := Compose(k, normal);
    ComposeIsProper(k, normal);
    NormalizedKeepsOutput(whole);
    var longer := path + [Some(pool)];
    assert longer[..|path|] == path;
    forall x: real | x >= 0.0 ensures Output(Normalized(whole).value, x) == PathOutput(longer, x) {
      ComposeIsComposition(k, normal, x);
      assert Output(k, x) == PathOutput(path, x);
    }
  }

  /** `v2_path_curve` */
  method V2PathCurve(path: Path) returns (r: Option<Curve>)
    ensures r.Some? <==> UsablePath(path)
    ensures r.Some? ==> ExactFor(path, r.value)
  {
    hide Output, PathOutput, Normalized;
    var curve := IDENTITY;
    IdentityIsExact();
    for i := 0 to |path|
      invariant ExactFor(path[..i], curve)
    {
      assert path[..i + 1] == path[..i] + [path[i]];
      if path[i].None? {
        return None;
      }
      if Usable(path[i].value) {
        ThenIsExact(path[..i], curve, path[i].value);
      }
      var leg := FromV2Reserves(path[i].value);
      if leg.None? {
        return None;
      }
      var next := Then(curve, leg.value);
      if next.None? {
        return None;
      }
      curve := next.value;
    }
    assert path[..|path|] == path;
    return Some(curve);
  }

  // ----- the best input

  /** `optimal_input` */
  function OptimalInput(k: Curve, cost: real, sqrt: real -> real): Option<real>
    requires Proper(k)
  {
    if cost <= 0.0 || k.denominatorSlope <= 0.0 then None
    else if RadicandAt(k, cost) <= 0.0 then None
    else
      var input := PointAt(k, cost, sqrt);
      if input > 0.0 then Some(input) else None
  }

  function Profit(k: Curve, cost: real, x: real): real
    requires Proper(k) && x >= 0.0
  {
    Output(k, x) - cost * x
  }

  function Clamp(x: real, low: real, high: real): real {
    if x < low then low else if x > high then high else x
  }

  /** The clamped closed form is a global optimum over the allowed range. */
  lemma OptimalInputIsGlobal(k: Curve, cost: real, sqrt: real -> real, low: real, high: real, x: real)
    requires Proper(k) && ExactRoot(sqrt) && 0.0 <= low <= x <= high
    requires OptimalInput(k, cost, sqrt).Some?
    ensures var target := Clamp(OptimalInput(k, cost, sqrt).value, low, high);
      target >= 0.0 && Profit(k, cost, x) <= Profit(k, cost, target)
  {
    hide Output, Slope, PointAt, ExactRoot;
    var best := OptimalInput(k, cost, sqrt).value;
    var target := Clamp(best, low, high);
    PointIsPositive(k, cost, sqrt);
    PointHasSlope(k, cost, sqrt);
    if best < low {
      SlopeAntitone(k, best, low);
    } else if best > high {
      SlopeAntitone(k, high, best);
    }
    Tangent(k, target, x);
    CostBound(Slope(k, target), cost, x - target);
  }

  /** Moving away from the target costs at least what the tangent promises. */
  lemma CostBound(slope: real, cost: real, move: real)
    requires (slope <= cost && move >= 0.0) || (slope >= cost && move <= 0.0) || slope == cost
    ensures slope * move <= cost * move
  {
    if slope < cost {
      ScaleBoth(slope, cost, move);
    } else if slope > cost {
      ScaleBoth(cost, slope, -move);
    }
  }

  /** Without a positive optimum no positive input is profitable. */
  lemma NoOptimumNoProfit(k: Curve, cost: real, sqrt: real -> real, x: real)
    requires Proper(k) && ExactRoot(sqrt) && x >= 0.0 && cost > 0.0 && k.denominatorSlope > 0.0
    requires OptimalInput(k, cost, sqrt).None?
    ensures Profit(k, cost, x) <= 0.0
  {
    hide Slope, PointAt, ExactRoot;
    var v := Radicand(k, cost);
    PointIsPositive(k, cost, sqrt);
    Tangent(k, 0.0, x);
    ScaleBoth(Slope(k, 0.0), cost, x);
    ZeroOutput(k);
  }

  lemma ZeroOutput(k: Curve)
    requires Proper(k)
    ensures Output(k, 0.0) == 0.0
  {}

  /** `marginal_input_cost` */
  function MarginalInputCost(fullFlash: bool, premiumPpm: nat): (cost: real)
    ensures cost >= 1.0
  {
    if fullFlash then 1.0 + premiumPpm as real / PPM as real else 1.0
  }

  ghost predicate NothingProfitable(k: Curve, cost: real, minAmount: nat, maxAmount: nat)
    requires Proper(k)
  {
    forall x: real :: minAmount as real <= x <= maxAmount as real ==> Profit(k, cost, x) <= 0.0
  }

  // ----- the suggested amounts

  /** Rounded to whole units and moved into the range. */
  function Placed(amount: real, minAmount: nat, maxAmount: nat): nat
    requires minAmount <= maxAmount
  {
    var rounded := (amount + 0.5).Floor;
    if rounded < minAmount then minAmount else if rounded > maxAmount then maxAmount else rounded
  }

  function Distance(x: nat, amount: real): real {
    RMax(x as real - amount, amount - x as real)
  }

  lemma WithinHalf(amount: real, rounded: int)
    requires rounded == (amount + 0.5).Floor
    ensures rounded as real - 0.5 <= amount < rounded as real + 0.5
  {}

  lemma DistanceIs(x: nat, amount: real)
    ensures Distance(x, amount) == if x as real <= amount then amount - x as real else x as real - amount
  {}

  /** What lies between an amount and a third point is no farther from the point. */
  lemma BetweenIsNearer(amount: real, y: nat, x: nat)
    requires amount <= y as real <= x as real || x as real <= y as real <= amount
    ensures Distance(y, amount) <= Distance(x, amount)
  {
    DistanceIs(x, amount);
    DistanceIs(y, amount);
  }

  lemma RoundedIsNearest(amount: real, y: nat, x: nat)
    requires y as real - 0.5 <= amount <= y as real + 0.5
    ensures Distance(y, amount) <= 0.5 && Distance(y, amount) <= Distance(x, amount)
  {
    DistanceIs(x, amount);
    DistanceIs(y, amount);
    hide Distance;
    assert x < y ==> x as real <= y as real - 1.0;
    assert x > y ==> x as real >= y as real + 1.0;
  }

  /** No amount in range is nearer. */
  lemma PlacedIsNearest(amount: real, minAmount: nat, maxAmount: nat, x: nat)
    requires minAmount <= x <= maxAmount
    ensures minAmount <= Placed(amount, minAmount, maxAmount) <= maxAmount
    ensures Distance(Placed(amount, minAmount, maxAmount), amount) <= Distance(x, amount)
    ensures minAmount as real <= amount <= maxAmount as real ==> Distance(Placed(amount, minAmount, maxAmount), amount) <= 0.5
  {
    var rounded := (amount + 0.5).Floor;
    WithinHalf(amount, rounded);
    hide Distance;
    if rounded < minAmount {
      assert rounded as real + 1.0 <= minAmount as real;
      BetweenIsNearer(amount, minAmount, x);
    } else if rounded > maxAmount {
      assert rounded as real - 1.0 >= maxAmount as real;
      BetweenIsNearer(amount, maxAmount, x);
    } else {
      RoundedIsNearest(amount, rounded, x);
    }
  }

  /** `push_amount` */
  function PushAmount(amounts: seq<nat>, amount: real, minAmount: nat, maxAmount: nat): (r: seq<nat>)
    requires minAmount <= maxAmount
  {
    if amount <= 0.0 || Placed(amount, minAmount, maxAmount) < 1 then amounts
    else amounts + [Min(Placed(amount, minAmount, maxAmount), U128_MAX)]
  }

  ghost predicate InRange(amounts: seq<nat>, minAmount: nat, maxAmount: nat) {
    forall x :: x in amounts ==> 1 <= x && minAmount <= x <= maxAmount
  }

  const MULTIPLIERS: seq<real> := [0.5, 0.75, 0.875, 1.0, 1.125, 1.25, 1.5, 2.0]

  /** The points that are tried: shares and multiples of the target, a root or a unit to either side of it,
      and both ends of the range. */
  function PointsAround(target: real, root: real, minAmount: nat, maxAmount: nat): (points: seq<real>)
    ensures |points| == 12
  {
    [target * 0.5, target * 0.75, target * 0.875, target, target * 1.125, target * 1.25, target * 1.5, target * 2.0,
     target - RMax(root, 1.0), target + RMax(root, 1.0), minAmount as real, maxAmount as real]
  }

  /** `x` is what a positive point is placed at, and not zero. */
  ghost predicate PlacedAt(point: real, minAmount: nat, maxAmount: nat, x: nat)
    requires minAmount <= maxAmount
  {
    point > 0.0 && x == Placed(point, minAmount, maxAmount) && x >= 1
  }

  /** Exactly the placed points. */
  ghost predicate HoldsPoints(amounts: seq<nat>, points: seq<real>, minAmount: nat, maxAmount: nat)
    requires minAmount <= maxAmount
  {
    forall x: nat :: x in amounts <==> exists i :: 0 <= i < |points| && PlacedAt(points[i], minAmount, maxAmount, x)
  }

  lemma PushHolds(amounts: seq<nat>, points: seq<real>, point: real, minAmount: nat, maxAmount: nat)
    requires minAmount <= maxAmount <= U128_MAX && HoldsPoints(amounts, points, minAmount, maxAmount)
    ensures HoldsPoints(PushAmount(amounts, point, minAmount, maxAmount), points + [point], minAmount, maxAmount)
  {
    var all, pushed := points + [point], PushAmount(amounts, point, minAmount, maxAmount);
    assert all[|points|] == point;
    forall x: nat ensures x in pushed <==> exists i :: 0 <= i < |all| && PlacedAt(all[i], minAmount, maxAmount, x) {
      assert x in pushed <==> x in amounts || PlacedAt(point, minAmount, maxAmount, x);
      hide PlacedAt, PushAmount;
      if i :| 0 <= i < |points| && PlacedAt(points[i], minAmount, maxAmount, x) {
        assert all[i] == points[i];
      }
    }
  }

  lemma NoPoints(minAmount: nat, maxAmount: nat)
    requires minAmount <= maxAmount
    ensures HoldsPoints([], [], minAmount, maxAmount)
  {}

  lemma PointsInRange(amounts: seq<nat>, points: seq<real>, minAmount: nat, maxAmount: nat)
    requires minAmount <= maxAmount && HoldsPoints(amounts, points, minAmount, maxAmount)
    ensures InRange(amounts, minAmount, maxAmount)
  {
    forall x | x in amounts ensures 1 <= x && minAmount <= x <= maxAmount {
      var i :| 0 <= i < |points| && PlacedAt(points[i], minAmount, maxAmount, x);
    }
  }

  lemma SameMembersHold(s: seq<nat>, t: seq<nat>, points: seq<real>, minAmount: nat, maxAmount: nat)
    requires minAmount <= maxAmount && HoldsPoints(s, points, minAmount, maxAmount)
    requires forall x: nat :: x in t <==> x in s
    ensures HoldsPoints(t, points, minAmount, maxAmount)
  {
    hide PlacedAt;
  }

  /** The amounts tried around a positive target. */
  method CollectAmounts(target: real, minAmount: nat, maxAmount: nat, sqrt: real -> real) returns (r: seq<nat>)
    requires 0.0 < target && minAmount as real <= target <= maxAmount as real && maxAmount <= U128_MAX
    ensures StrictlyAscending(r) && InRange(r, minAmount, maxAmount)
    ensures HoldsPoints(r, PointsAround(target, sqrt(target), minAmount, maxAmount), minAmount, maxAmount)
  {
    hide StrictlyAscending, PushAmount, InRange, SortedBy, HoldsPoints;
    ghost var points := PointsAround(target, sqrt(target), minAmount, maxAmount);
    var amounts: seq<nat> := [];
    NoPoints(minAmount, maxAmount);
    assert points[..0] == [];
    for i := 0 to |MULTIPLIERS|
      invariant HoldsPoints(amounts, points[..i], minAmount, maxAmount)
    {
      assert points[..i + 1] == points[..i] + [points[i]];
      assert points[i] == target * MULTIPLIERS[i];
      PushHolds(amounts, points[..i], points[i], minAmount, maxAmount);
      amounts := PushAmount(amounts, target * MULTIPLIERS[i], minAmount, maxAmount);
    }
    var step := RMax(sqrt(target), 1.0);
    LastFourPoints(points);
    PushHolds(amounts, points[..8], points[8], minAmount, maxAmount);
    amounts := PushAmount(amounts, target - step, minAmount, maxAmount);
    PushHolds(amounts, points[..9], points[9], minAmount, maxAmount);
    amounts := PushAmount(amounts, target + step, minAmount, maxAmount);
    PushHolds(amounts, points[..10], points[10], minAmount, maxAmount);
    amounts := PushAmount(amounts, minAmount as real, minAmount, maxAmount);
    PushHolds(amounts, points[..11], points[11], minAmount, maxAmount);
    amounts := PushAmount(amounts, maxAmount as real, minAmount, maxAmount);
    SortDedup(amounts);
    r := Dedup(Sort(amounts, AtMost()));
    SameMembersHold(amounts, r, points, minAmount, maxAmount);
    PointsInRange(r, points, minAmount, maxAmount);
  }

  lemma LastFourPoints(points: seq<real>)
    requires |points| == 12
    ensures points[..9] == points[..8] + [points[8]] && points[..10] == points[..9] + [points[9]]
    ensures points[..11] == points[..10] + [points[10]] && points == points[..11] + [points[11]]
  {}

  /** The amount in range that pays best on the curve. */
  ghost predicate PaysBest(k: Curve, cost: real, minAmount: nat, maxAmount: nat, best: real)
    requires Proper(k)
  {
    && minAmount as real <= best <= maxAmount as real
    && forall x: real :: minAmount as real <= x <= maxAmount as real ==> Profit(k, cost, x) <= Profit(k, cost, best)
  }

  /** Some amount is within half a unit; for a point below half a unit it is the unit itself. */
  ghost predicate ComesNear(amounts: seq<nat>, best: real) {
    if best < 0.5 then 1 in amounts else exists x :: x in amounts && Distance(x, best) <= 0.5
  }

  /** The placed points hold both ends of the range and come near the target. */
  lemma PointsComeNear(amounts: seq<nat>, target: real, root: real, minAmount: nat, maxAmount: nat)
    requires 0.0 < target && minAmount as real <= target <= maxAmount as real
    requires HoldsPoints(amounts, PointsAround(target, root, minAmount, maxAmount), minAmount, maxAmount)
    ensures maxAmount in amounts && (minAmount > 0 ==> minAmount in amounts)
    ensures root <= 1.0 || target >= 0.5 ==> ComesNear(amounts, target)
  {
    var points := PointsAround(target, root, minAmount, maxAmount);
    assert PlacedAt(points[11], minAmount, maxAmount, maxAmount);
    assert minAmount > 0 ==> PlacedAt(points[10], minAmount, maxAmount, minAmount);
    if target < 0.5 {
      assert root <= 1.0 ==> PlacedAt(points[9], minAmount, maxAmount, 1);
    } else {
      assert points[3] == target;
      assert PlacedAt(points[3], minAmount, maxAmount, Placed(target, minAmount, maxAmount));
      PlacedIsNearest(target, minAmount, maxAmount, maxAmount);
    }
  }

  lemma SmallRoot(sqrt: real -> real, v: real)
    requires ExactRoot(sqrt) && 0.0 <= v < 1.0
    ensures sqrt(v) <= 1.0
  {
    var root := RootOf(sqrt, v);
    hide ExactRoot;
    if root > 1.0 {
      SquareGrows(1.0, root);
    }
  }

  /** `suggest_input_amounts`. A useful answer exists exactly when some amount in range is profitable on the
      real curve; then it is a strictly ascending list of amounts in range that holds both ends of the range
      and comes near an amount that pays best, and it consists of the points around that amount. */
  method SuggestInputAmounts(path: Path, fullFlash: bool, premiumPpm: nat, minAmount: nat, maxAmount: nat,
                             sqrt: real -> real)
    returns (r: seq<nat>, ghost curve: Option<Curve>)
    requires minAmount <= maxAmount <= U128_MAX && ExactRoot(sqrt)
    ensures curve.Some? <==> UsablePath(path)
    ensures curve.Some? ==> ExactFor(path, curve.value)
    ensures StrictlyAscending(r) && InRange(r, minAmount, maxAmount)
    ensures !UsablePath(path) || path == [] ==> r == []
    ensures UsablePath(path) && path != [] ==>
      (r == [] <==> NothingProfitable(curve.value, MarginalInputCost(fullFlash, premiumPpm), minAmount, maxAmount))
    ensures r != [] ==> maxAmount in r && (minAmount > 0 ==> minAmount in r)
    ensures r != [] ==> exists best: real ::
      && best > 0.0 && PaysBest(curve.value, MarginalInputCost(fullFlash, premiumPpm), minAmount, maxAmount, best)
      && ComesNear(r, best) && HoldsPoints(r, PointsAround(best, sqrt(best), minAmount, maxAmount), minAmount, maxAmount)
  {
    hide Output, ExactRoot, PointAt, StrictlyAscending, NothingProfitable, InRange, PathOutput, HoldsPoints, PaysBest, ComesNear;
    r := [];
    EmptyInRange(minAmount, maxAmount);
    assert StrictlyAscending([]) by { EmptyAscends(); }
    curve := None;
    var folded := V2PathCurve(path);
    if folded.None? {
      return;
    }
    var k := folded.value;
    curve := Some(k);
    var cost := MarginalInputCost(fullFlash, premiumPpm);
    var optimal := OptimalInput(k, cost, sqrt);
    if optimal.None? {
      if path != [] {
        NothingWithoutOptimum(k, cost, sqrt, minAmount, maxAmount);
      }
      return;
    }
    var target := Clamp(optimal.value, minAmount as real, maxAmount as real);
    BestOverRange(k, cost, sqrt, minAmount, maxAmount);
    if path == [] {
      NoHopsNoProfit(k, cost, target);
    }
    if Profit(k, cost, target) <= 0.0 {
      return;
    }
    ProfitNeedsInput(k, cost, target);

    r := CollectAmounts(target, minAmount, maxAmount, sqrt);
    if target < 0.5 {
      SmallRoot(sqrt, target);
    }
    PointsComeNear(r, target, sqrt(target), minAmount, maxAmount);
  }

  lemma EmptyInRange(minAmount: nat, maxAmount: nat)
    ensures InRange([], minAmount, maxAmount)
  {}

  lemma NoHopsNoProfit(k: Curve, cost: real, x: real)
    requires ExactFor([], k) && cost >= 1.0 && x >= 0.0
    ensures Profit(k, cost, x) <= 0.0
  {
    hide Output;
    assert Output(k, x) == PathOutput([], x) == x;
    NonNegativeProduct(cost - 1.0, x);
  }

  lemma NothingWithoutOptimum(k: Curve, cost: real, sqrt: real -> real, minAmount: nat, maxAmount: nat)
    requires Proper(k) && ExactRoot(sqrt) && cost > 0.0 && k.denominatorSlope > 0.0
    requires OptimalInput(k, cost, sqrt).None?
    ensures NothingProfitable(k, cost, minAmount, maxAmount)
  {
    hide Output, ExactRoot, PointAt;
    forall x: real | minAmount as real <= x <= maxAmount as real ensures Profit(k, cost, x) <= 0.0 {
      NoOptimumNoProfit(k, cost, sqrt, x);
    }
  }

  lemma EmptyAscends()
    ensures StrictlyAscending([])
  {}

  lemma BestOverRange(k: Curve, cost: real, sqrt: real -> real, minAmount: nat, maxAmount: nat)
    requires Proper(k) && ExactRoot(sqrt) && minAmount <= maxAmount
    requires OptimalInput(k, cost, sqrt).Some?
    ensures var target := Clamp(OptimalInput(k, cost, sqrt).value, minAmount as real, maxAmount as real);
      && minAmount as real <= target <= maxAmount as real
      && PaysBest(k, cost, minAmount, maxAmount, target)
      && (Profit(k, cost, target) <= 0.0 <==> NothingProfitable(k, cost, minAmount, maxAmount))
  {
    hide Output, ExactRoot, PointAt;
    var target := Clamp(OptimalInput(k, cost, sqrt).value, minAmount as real, maxAmount as real);
    forall x: real | minAmount as real <= x <= maxAmount as real ensures Profit(k, cost, x) <= Profit(k, cost, target) {
      OptimalInputIsGlobal(k, cost, sqrt, minAmount as real, maxAmount as real, x);
    }
    hide Profit;
  }

  lemma ProfitNeedsInput(k: Curve, cost: real, x: real)
    requires Proper(k) && x >= 0.0 && Profit(k, cost, x) > 0.0
    ensures x > 0.0
  {
    ZeroOutput(k);
  }

  // ----- what an empty suggestion means for the integer quotes

  /** Integer quotes chained along the path; a failed quote is zero. */
  function ChainQuote(path: Path, amount: nat): nat {
    if path == [] then amount
    else
      var fed := ChainQuote(path[..|path| - 1], amount);
      var last := path[|path| - 1];
      if last.None? then 0
      else match QuoteExactIn(last.value, fed)
        case None => 0
        case Some(out) => out
  }

  ghost predicate ChainFits(path: Path, amount: nat)
    requires UsablePath(path)
  {
    forall i :: 0 <= i < |path| ==> DenominatorFits(path[i].value, ChainQuote(path[..i], amount))
  }

  /** Chaining the integer quotes never beats the folded curve. */
  lemma {:induction false} ChainBelowCurve(path: Path, amount: nat)
    requires UsablePath(path) && ChainFits(path, amount)
    ensures ChainQuote(path, amount) as real <= PathOutput(path, amount as real)
  {
    if path != [] {
      hide Output, QuoteExactIn, DenominatorFits;
      var n := |path| - 1;
      var init, pool := path[..n], path[n].value;
      forall i | 0 <= i < n ensures DenominatorFits(init[i].value, ChainQuote(init[..i], amount)) {
        assert init[..i] == path[..i];
      }
      ChainBelowCurve(init, amount);
      var fed := ChainQuote(init, amount);
      QuoteBelowCurve(pool, fed);
      OutputMonotone(CurveOf(pool), fed as real, PathOutput(init, amount as real));
    }
  }

  /** `estimated_full_flash_fee_raw` */
  function FlashFee(fullFlash: bool, amount: nat, premiumPpm: nat): nat {
    if fullFlash then SatMul(amount, premiumPpm) / PPM else 0
  }

  /** The fee is the premium the marginal cost counts, rounded down. */
  lemma FeeIsPremium(fullFlash: bool, amount: nat, premiumPpm: nat)
    requires fullFlash ==> amount * premiumPpm <= U128_MAX
    ensures var premium := (MarginalInputCost(fullFlash, premiumPpm) - 1.0) * amount as real;
      FlashFee(fullFlash, amount, premiumPpm) as real <= premium < FlashFee(fullFlash, amount, premiumPpm) as real + 1.0
  {
    if fullFlash {
      ToReal(amount, premiumPpm);
      QuotientTimes(premiumPpm as real, PPM as real);
      var rate, fee := premiumPpm as real / PPM as real, FlashFee(fullFlash, amount, premiumPpm);
      assert rate * amount as real * PPM as real == amount as real * premiumPpm as real;
      DivBounds(amount * premiumPpm, PPM);
      assert fee * PPM <= amount * premiumPpm < (fee + 1) * PPM;
      PpmBounds(rate * amount as real, fee, amount * premiumPpm);
    }
  }

  lemma PpmBounds(premium: real, fee: nat, product: nat)
    requires premium * PPM as real == product as real && fee * PPM <= product < (fee + 1) * PPM
    ensures fee as real <= premium < fee as real + 1.0
  {}

  lemma FlooredFee(fullFlash: bool, amount: nat, premiumPpm: nat, out: nat)
    requires fullFlash ==> amount * premiumPpm <= U128_MAX
    requires out as real <= MarginalInputCost(fullFlash, premiumPpm) * amount as real
    ensures out - amount - FlashFee(fullFlash, amount, premiumPpm) <= 0
  {
    if fullFlash {
      ToReal(amount, premiumPpm);
      var rate := premiumPpm as real / PPM as real;
      QuotientTimes(premiumPpm as real, PPM as real);
      assert (1.0 + rate) * amount as real * PPM as real
          == amount as real * PPM as real + premiumPpm as real * amount as real;
      assert (out - amount) * PPM <= amount * premiumPpm;
    }
  }

  /** While its denominator fits, a quote is at most the largest fee: the denominator counts every
      unit of the input reserve a million times. */
  lemma QuoteBelowLargestFee(pool: Pool, amountIn: nat)
    requires Usable(pool) && DenominatorFits(pool, amountIn)
    ensures QuoteExactIn(pool, amountIn).Some? && QuoteExactIn(pool, amountIn).value <= U128_MAX / PPM
  {
    if amountIn > 0 {
      var d := SatAdd(SatMul(pool.reserveIn, PPM), SatMul(amountIn, FeeFactor(pool)));
      var n := SatMul(SatMul(amountIn, FeeFactor(pool)), pool.reserveOut);
      assert d >= PPM;
      QuotientBound(n, d);
    }
  }

  lemma QuotientBound(n: nat, d: nat)
    requires n <= U128_MAX && d >= PPM
    ensures n / d <= U128_MAX / PPM
  {
    var q: int := n / d;
    DivBounds(n, d);
    MulMono(PPM, d, q);
    DivBounds(U128_MAX, PPM);
    QuotientMono(q, U128_MAX / PPM, q * PPM, U128_MAX, PPM);
  }

  lemma ChainBelowLargestFee(path: Path, amount: nat)
    requires UsablePath(path) && ChainFits(path, amount) && path != []
    ensures ChainQuote(path, amount) <= U128_MAX / PPM
  {
    hide QuoteExactIn, DenominatorFits;
    var n := |path| - 1;
    assert path[..n] == path[..|path| - 1];
    QuoteBelowLargestFee(path[n].value, ChainQuote(path[..n], amount));
  }

  /** The fast sizer hides nothing: an empty suggestion on a usable path means that no amount
      in range leaves a positive difference between the chained quote, the input and the
      floored flash fee, as long as the denominators along the chain fit 128 bits. */
  lemma EmptySuggestionHidesNothing(path: Path, curve: Curve, fullFlash: bool, premiumPpm: nat,
                                    minAmount: nat, maxAmount: nat, amount: nat)
    requires ExactFor(path, curve)
    requires NothingProfitable(curve, MarginalInputCost(fullFlash, premiumPpm), minAmount, maxAmount)
    requires minAmount <= amount <= maxAmount
    requires ChainFits(path, amount)
    ensures ChainQuote(path, amount) - amount - FlashFee(fullFlash, amount, premiumPpm) <= 0
  {
    hide Output, PathOutput, ChainFits, ChainQuote;
    if path == [] {
      NoHops(amount);
    } else if fullFlash && amount * premiumPpm > U128_MAX {
      hide ExactFor, NothingProfitable;
      UsableFrom(path, curve);
      ChainBelowLargestFee(path, amount);
      SaturatedFee(amount, premiumPpm);
    } else {
      ChainBelowCurve(path, amount);
      var cost := MarginalInputCost(fullFlash, premiumPpm);
      assert Profit(curve, cost, amount as real) <= 0.0;
      FlooredFee(fullFlash, amount, premiumPpm, ChainQuote(path, amount));
    }
  }

  lemma NoHops(amount: nat)
    ensures ChainQuote([], amount) == amount
  {}

  lemma UsableFrom(path: Path, curve: Curve)
    requires ExactFor(path, curve)
    ensures UsablePath(path)
  {}

  lemma SaturatedFee(amount: nat, premiumPpm: nat)
    requires amount * premiumPpm > U128_MAX
    ensures FlashFee(true, amount, premiumPpm) == U128_MAX / PPM
  {}
}
