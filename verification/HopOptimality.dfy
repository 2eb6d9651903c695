/** How good a hop split by water-filling is, in the integers the pools pay
    (`src/router/split_optimizer.rs`, `src/router/v2_split.rs`, `src/amm/uniswap_v2.rs`). */
module HopOptimality {
  import opened Common
  import opened RationalCurve
  import opened SplitOptimizer
  import Sorting
  import V2Split
  import UniswapV2

  /** The legs are built from these pools, and each pool is quoted by the constant-product quote. */
  ghost predicate LegsOfPools(legs: seq<V2Split.Leg>, pools: seq<UniswapV2.Pool>, quote: Quoter) {
    && |pools| == |legs|
    && forall i :: 0 <= i < |pools| ==>
         && UniswapV2.Usable(pools[i]) && legs[i].curve == UniswapV2.CurveOf(pools[i])
         && forall amount: nat :: quote(i, amount) == UniswapV2.QuoteExactIn(pools[i], amount)
  }

  /** A leg is made of every usable pool, with the curve of the pool and its cap; a cap of zero is none. */
  lemma LegOfPool(pool: UniswapV2.Pool, safeCapacity: nat, amount: nat)
    ensures var leg := V2Split.LegFromReserves(pool.reserveIn, pool.reserveOut, pool.feePpm, safeCapacity);
      && (leg.Some? <==> UniswapV2.Usable(pool))
      && (leg.Some? ==> leg.value.curve == UniswapV2.CurveOf(pool))
      && (leg.Some? ==> (V2Split.WithinCap(leg.value, amount as real) <==> safeCapacity == 0 || amount <= safeCapacity))
  {}

  /** What the pools pay together. */
  function Paid(pools: seq<UniswapV2.Pool>, amounts: seq<nat>): nat
    requires |pools| == |amounts|
  {
    if pools == [] then 0
    else
      var n := |pools| - 1;
      var q := UniswapV2.QuoteExactIn(pools[n], amounts[n]);
      Paid(pools[..n], amounts[..n]) + (if q.Some? then q.value else 0)
  }

  /** No pool's quote saturates on any amount up to `total`. */
  predicate NeverSaturates(pools: seq<UniswapV2.Pool>, total: nat) {
    forall i :: 0 <= i < |pools| ==>
      UniswapV2.DenominatorFits(pools[i], total) && UniswapV2.TrueNumerator(pools[i], total) <= U128_MAX
  }

  lemma FitsBelow(pool: UniswapV2.Pool, amount: nat, total: nat)
    requires amount <= total
    requires UniswapV2.DenominatorFits(pool, total) && UniswapV2.TrueNumerator(pool, total) <= U128_MAX
    ensures UniswapV2.DenominatorFits(pool, amount) && UniswapV2.TrueNumerator(pool, amount) <= U128_MAX
  {
    var fee := UniswapV2.FeeFactor(pool);
    MulMono(amount, total, fee);
    MulMono(amount * fee, total * fee, pool.reserveOut);
  }

  /** Without saturation the integer quote is the curve, cut off below the next whole unit. */
  lemma QuoteNearCurve(pool: UniswapV2.Pool, amount: nat)
    requires UniswapV2.Usable(pool) && UniswapV2.DenominatorFits(pool, amount)
    requires UniswapV2.TrueNumerator(pool, amount) <= U128_MAX
    ensures var q := UniswapV2.QuoteExactIn(pool, amount);
      q.Some? && q.value as real <= Output(UniswapV2.CurveOf(pool), amount as real) < q.value as real + 1.0
  {
    hide Output, UniswapV2.QuoteExactIn, UniswapV2.DenominatorFits, UniswapV2.TrueNumerator, UniswapV2.TrueDenominator,
         UniswapV2.CurveOf, UniswapV2.Div;
    UniswapV2.QuoteBelowCurve(pool, amount);
    UniswapV2.QuoteNearCurveIff(pool, amount);
    UniswapV2.QuotientsOrdered(UniswapV2.TrueNumerator(pool, amount), U128_MAX, UniswapV2.TrueDenominator(pool, amount));
  }

  /** The curves pay what the pools pay, and less than a unit per pool on top. */
  lemma {:induction false} PaidNearCurves(legs: seq<V2Split.Leg>, pools: seq<UniswapV2.Pool>, quote: Quoter, amounts: seq<nat>,
                                          total: nat)
    requires V2Split.ValidLegs(legs) && LegsOfPools(legs, pools, quote) && |amounts| == |legs|
    requires NeverSaturates(pools, total) && forall i :: 0 <= i < |amounts| ==> amounts[i] <= total
    ensures var outputs := V2Split.SumR(V2Split.OutputsOf(legs, V2Split.AsReals(amounts)));
      Paid(pools, amounts) as real <= outputs <= Paid(pools, amounts) as real + |legs| as real
  {
    hide Output, UniswapV2.QuoteExactIn, UniswapV2.DenominatorFits, UniswapV2.TrueNumerator, UniswapV2.CurveOf;
    var outputs := V2Split.OutputsOf(legs, V2Split.AsReals(amounts));
    if legs != [] {
      var n := |legs| - 1;
      PaidNearCurves(legs[..n], pools[..n], quote, amounts[..n], total);
      assert outputs[..n] == V2Split.OutputsOf(legs[..n], V2Split.AsReals(amounts[..n]));
      FitsBelow(pools[n], amounts[n], total);
      QuoteNearCurve(pools[n], amounts[n]);
    }
  }

  /** The plans of an allocation expect what the pools pay for it. */
  lemma {:induction false} PlansExpectPaid(edges: Edges, quote: Quoter, legs: seq<V2Split.Leg>, pools: seq<UniswapV2.Pool>,
                                           amounts: seq<nat>, n: nat)
    requires n <= |pools| == |amounts| <= |edges| && LegsOfPools(legs, pools, quote)
    requires forall i :: 0 <= i < |pools| ==> edges[i].Some?
    ensures Sum(ExpectedOf(PlansOf(edges, quote, amounts, n))) == Paid(pools[..n], amounts[..n])
  {
    hide UniswapV2.Usable;
    if n > 0 {
      PlansExpectPaid(edges, quote, legs, pools, amounts, n - 1);
      assert pools[..n][..n - 1] == pools[..n - 1] && amounts[..n][..n - 1] == amounts[..n - 1];
      var rest := PlansOf(edges, quote, amounts, n - 1);
      var q := quote(n - 1, amounts[n - 1]);
      assert q == UniswapV2.QuoteExactIn(pools[n - 1], amounts[n - 1]);
      if q.Some? {
        PushPlan(rest, PlanFor(edges, n - 1, amounts[n - 1], q.value));
      }
    }
  }

  lemma FinalPlansExpectPaid(edges: Edges, quote: Quoter, legs: seq<V2Split.Leg>, pools: seq<UniswapV2.Pool>, amounts: seq<nat>)
    requires |pools| == |amounts| <= |edges| && LegsOfPools(legs, pools, quote)
    requires forall i :: 0 <= i < |pools| ==> edges[i].Some?
    ensures Sum(ExpectedOf(FinalPlans(edges, quote, amounts))) == Paid(pools, amounts)
  {
    hide LegsOfPools, PlanOrder, PlansOf;
    PlansExpectPaid(edges, quote, legs, pools, amounts, |amounts|);
    assert pools[..|amounts|] == pools && amounts[..|amounts|] == amounts;
    SortKeepsSums(PlansOf(edges, quote, amounts, |amounts|), PlanOrder(edges));
  }

  /** What rounding, rebalancing and the unspent rest of the bisection can cost. */
  function Slack(legs: seq<V2Split.Leg>, total: nat, sqrt: real -> real): real
    requires V2Split.ValidLegs(legs)
  {
    var high := V2Split.FinalMarginal(legs, total, sqrt);
    V2Split.StartMarginal(legs) * |legs| as real
      + high * (total as real - V2Split.SumR(V2Split.AllocationsAt(legs, high, sqrt)))
  }

  lemma RealSum(amounts: seq<nat>)
    ensures V2Split.SumR(V2Split.AsReals(amounts)) == Sum(amounts) as real
  {
    if amounts != [] {
      var n := |amounts| - 1;
      RealSum(amounts[..n]);
      assert V2Split.AsReals(amounts)[..n] == V2Split.AsReals(amounts[..n]);
    }
  }

  lemma UnitsRespectCaps(legs: seq<V2Split.Leg>, amounts: seq<nat>)
    requires V2Split.UnitsWithinCaps(legs, amounts)
    ensures V2Split.RespectsCaps(legs, V2Split.AsReals(amounts))
  {}

  /** On one pool the whole total pays at least as much as any part of it. */
  lemma WholeBeatsPart(legs: seq<V2Split.Leg>, total: nat, amounts: seq<nat>, others: seq<nat>)
    requires V2Split.ValidLegs(legs) && |legs| == |amounts| == |others| == 1
    requires Sum(amounts) == total && Sum(others) <= total
    ensures V2Split.SumR(V2Split.OutputsOf(legs, V2Split.AsReals(others)))
         <= V2Split.SumR(V2Split.OutputsOf(legs, V2Split.AsReals(amounts)))
  {
    hide Output;
    assert amounts[..0] == [] && others[..0] == [];
    assert Sum(amounts) == Sum(amounts[..0]) + amounts[0] && Sum(others) == Sum(others[..0]) + others[0];
    OutputMonotone(legs[0].curve, others[0] as real, amounts[0] as real);
    var f, g := V2Split.OutputsOf(legs, V2Split.AsReals(others)), V2Split.OutputsOf(legs, V2Split.AsReals(amounts));
    assert f[..0] == [] && g[..0] == [];
    assert V2Split.SumR(f) == V2Split.SumR(f[..0]) + f[0] && V2Split.SumR(g) == V2Split.SumR(g[..0]) + g[0];
  }

  lemma SlackIsCost(legs: seq<V2Split.Leg>, total: nat, sqrt: real -> real)
    requires V2Split.ValidLegs(legs) && legs != []
    ensures Slack(legs, total, sqrt) >= 0.0
  {
    hide V2Split.AllocationsAt, V2Split.Bisect, V2Split.StartMarginal;
    V2Split.BisectKeepsBracket(legs, total, sqrt, 80);
    var b := V2Split.Bisect(legs, total, sqrt, V2Split.StartMarginal(legs), 80);
    V2Split.LeftUnspent(legs, total, sqrt, b);
    NonNegativeProduct(V2Split.StartMarginal(legs), |legs| as real);
    NonNegativeProduct(b.high, total as real - V2Split.SumR(V2Split.AllocationsAt(legs, b.high, sqrt)));
  }

  /** On the curves, what is returned falls short of any other split by at most the slack. */
  lemma LevelNearOptimal(legs: seq<V2Split.Leg>, total: nat, sqrt: real -> real, amounts: seq<nat>, others: seq<nat>)
    requires V2Split.ValidLegs(legs) && legs != [] && total <= U128_MAX && ExactRoot(sqrt)
    requires V2Split.WaterLevel(legs, total, sqrt, amounts)
    requires V2Split.UnitsWithinCaps(legs, others) && Sum(others) <= total
    ensures V2Split.SumR(V2Split.OutputsOf(legs, V2Split.AsReals(others)))
         <= V2Split.SumR(V2Split.OutputsOf(legs, V2Split.AsReals(amounts))) + Slack(legs, total, sqrt)
  {
    hide Output, ExactRoot, V2Split.AllocationsAt, V2Split.Bisect, V2Split.StartMarginal, V2Split.Rebalanced, V2Split.OutputsOf,
         V2Split.SumR, Sum, V2Split.RespectsCaps, V2Split.AsReals, V2Split.ValidLegs;
    if |legs| == 1 {
      WholeBeatsPart(legs, total, amounts, others);
      SlackIsCost(legs, total, sqrt);
    } else {
      RealSum(others);
      UnitsRespectCaps(legs, others);
      V2Split.ReturnedNearOptimal(legs, total, amounts, V2Split.AsReals(others), sqrt);
    }
  }

  /** Whatever split of the input over these pools within the caps is tried, the pools pay for it at most
      what the plans of the water-filled hop expect, a unit per pool and the slack on top. */
  lemma WaterFilledNearOptimal(edges: Edges, quote: Quoter, legs: seq<V2Split.Leg>, pools: seq<UniswapV2.Pool>, totalIn: nat,
                               maxParallel: nat, sqrt: real -> real, plans: seq<Plan>, others: seq<nat>)
    requires LegsMatch(edges, maxParallel, legs) && LegsOfPools(legs, pools, quote) && legs != []
    requires totalIn <= U128_MAX && ExactRoot(sqrt) && NeverSaturates(pools, totalIn)
    requires WaterFilled(edges, quote, legs, totalIn, sqrt, plans)
    requires V2Split.UnitsWithinCaps(legs, others) && Sum(others) <= totalIn
    ensures |pools| == |others|
    ensures Paid(pools, others) as real <= Sum(ExpectedOf(plans)) as real + |legs| as real + Slack(legs, totalIn, sqrt)
  {
    var amounts :| V2Split.WaterLevel(legs, totalIn, sqrt, amounts) && |amounts| <= |edges|
                   && plans == FinalPlans(edges, quote, amounts);
    hide ExactRoot, Slack, NeverSaturates, FinalPlans, Paid, LegsOfPools, V2Split.ValidLegs, V2Split.SumR, V2Split.OutputsOf, V2Split.AsReals;
    PartsAtMostTotal(amounts, totalIn);
    PartsAtMostTotal(others, totalIn);
    PoolCount(legs, pools, quote);
    FinalPlansExpectPaid(edges, quote, legs, pools, amounts);
    PaidNearCurves(legs, pools, quote, amounts, totalIn);
    PaidNearCurves(legs, pools, quote, others, totalIn);
    LevelNearOptimal(legs, totalIn, sqrt, amounts, others);
  }

  lemma PoolCount(legs: seq<V2Split.Leg>, pools: seq<UniswapV2.Pool>, quote: Quoter)
    requires LegsOfPools(legs, pools, quote)
    ensures |pools| == |legs|
  {}

  lemma PartsAtMostTotal(amounts: seq<nat>, total: nat)
    requires Sum(amounts) <= total
    ensures forall i :: 0 <= i < |amounts| ==> amounts[i] <= total
  {
    forall i | 0 <= i < |amounts| ensures amounts[i] <= total {
      SumBound(amounts, i);
    }
  }
}
