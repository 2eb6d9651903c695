/** Water-filling over parallel constant-product pools (`src/router/v2_split.rs`).

    `f64` is read as the real numbers and `sqrt` as an exact root handed in by the caller. */
module V2Split {
  import opened Common
  import opened RationalCurve
  import opened Sorting

  /** `V2AllocationLeg` */
  datatype Leg = Leg(curve: Curve, capacity: Option<nat>)

  const F64_MAX: real := 179769313486231570814527423731704356798070567525844996598917476803157260780028538760589558632766878171540458953514382464234321326889464182768467546703537516986049910576551282076245490090389328944075868508455133942304583236903222948165808559332123348274797826204144723168738177180919299881250404026184124858368.0

  ghost predicate ValidLeg(leg: Leg) {
    Proper(leg.curve) && leg.curve.denominatorSlope > 0.0
    && (leg.capacity.Some? ==> leg.capacity.value <= U128_MAX)
  }

  ghost predicate ValidLegs(legs: seq<Leg>) {
    forall i :: 0 <= i < |legs| ==> ValidLeg(legs[i])
  }

  /** `from_state` for reserves already oriented, with the capacity the caller fills in. */
  function LegFromReserves(reserveIn: nat, reserveOut: nat, feePpm: nat, safeCapacity: nat): (leg: Option<Leg>)
    ensures leg.Some? <==> reserveIn > 0 && reserveOut > 0 && feePpm < PPM
    ensures leg.Some? && safeCapacity <= U128_MAX ==> ValidLeg(leg.value)
  {
    if reserveIn == 0 || reserveOut == 0 || feePpm >= PPM then None
    else
      var feeFactor := (PPM - feePpm) as real;
      Some(Leg(Curve(feeFactor * reserveOut as real, reserveIn as real * PPM as real, feeFactor),
               if safeCapacity > 0 then Some(safeCapacity) else None))
  }

  function MarginalAt(leg: Leg, amount: real): real
    requires Proper(leg.curve) && amount >= 0.0
  {
    Slope(leg.curve, amount)
  }

  function AllocationAtMarginal(leg: Leg, marginal: real, sqrt: real -> real): (amount: real)
    requires ValidLeg(leg)
    ensures amount >= 0.0
    ensures leg.capacity.Some? ==> amount <= leg.capacity.value as real
  {
    if marginal <= 0.0 then
      (if leg.capacity.Some? then leg.capacity.value as real else F64_MAX)
    else if marginal >= MarginalAt(leg, 0.0) then 0.0
    else
      var amount := RMax(PointAt(leg.curve, marginal, sqrt), 0.0);
      if leg.capacity.Some? then RMin(amount, leg.capacity.value as real) else amount
  }

  // ----- water-filling is optimal

  ghost predicate WithinCap(leg: Leg, amount: real) {
    amount >= 0.0 && (leg.capacity.Some? ==> amount <= leg.capacity.value as real)
  }

  /** Against one common marginal, no other amount gains a leg more than it costs. */
  lemma LegWaterLine(leg: Leg, marginal: real, other: real, sqrt: real -> real)
    requires ValidLeg(leg) && ExactRoot(sqrt) && marginal > 0.0 && WithinCap(leg, other)
    ensures var mine := AllocationAtMarginal(leg, marginal, sqrt);
      Priced(marginal, mine, other, Output(leg.curve, mine), Output(leg.curve, other))
  {
    hide Slope, Output, ExactRoot, PointAt;
    var k, mine := leg.curve, AllocationAtMarginal(leg, marginal, sqrt);
    Tangent(k, mine, other);
    if marginal >= Slope(k, 0.0) {
      ScaleBoth(Slope(k, 0.0), marginal, other);
    } else {
      PointHasSlope(k, marginal, sqrt);
      var free := PointAt(k, marginal, sqrt);
      if mine < free {
        SlopeAntitone(k, mine, free);
        ScaleBoth(marginal, Slope(k, mine), mine - other);
      }
    }
  }

  function SumR(xs: seq<real>): real {
    if xs == [] then 0.0 else SumR(xs[..|xs| - 1]) + xs[|xs| - 1]
  }

  function AllocationsAt(legs: seq<Leg>, marginal: real, sqrt: real -> real): seq<real>
    requires ValidLegs(legs)
  {
    seq(|legs|, i requires 0 <= i < |legs| => AllocationAtMarginal(legs[i], marginal, sqrt))
  }

  ghost predicate RespectsCaps(legs: seq<Leg>, amounts: seq<real>) {
    |amounts| == |legs| && forall i :: 0 <= i < |legs| ==> WithinCap(legs[i], amounts[i])
  }

  function OutputsOf(legs: seq<Leg>, amounts: seq<real>): seq<real>
    requires |legs| == |amounts|
    requires forall i :: 0 <= i < |legs| ==> Proper(legs[i].curve) && amounts[i] >= 0.0
  {
    seq(|legs|, i requires 0 <= i < |legs| => Output(legs[i].curve, amounts[i]))
  }

  ghost predicate Priced(price: real, x: real, y: real, fx: real, fy: real) {
    fy - fx <= price * (y - x)
  }

  /** Termwise bounds by one price add up. */
  lemma {:induction false} PricedSum(price: real, xs: seq<real>, ys: seq<real>, fx: seq<real>, fy: seq<real>)
    requires |xs| == |ys| == |fx| == |fy|
    requires forall i :: 0 <= i < |xs| ==> Priced(price, xs[i], ys[i], fx[i], fy[i])
    ensures Priced(price, SumR(xs), SumR(ys), SumR(fx), SumR(fy))
  {
    if xs != [] {
      hide Priced;
      var n := |xs| - 1;
      PricedSum(price, xs[..n], ys[..n], fx[..n], fy[..n]);
      assert Priced(price, xs[n], ys[n], fx[n], fy[n]);
      PricedAdd(price, SumR(xs[..n]), SumR(ys[..n]), SumR(fx[..n]), SumR(fy[..n]), xs[n], ys[n], fx[n], fy[n]);
    }
  }

  lemma PricedAdd(p: real, x: real, y: real, fx: real, fy: real, x': real, y': real, fx': real, fy': real)
    requires Priced(p, x, y, fx, fy) && Priced(p, x', y', fx', fy')
    ensures Priced(p, x + x', y + y', fx + fx', fy + fy')
  {
    AddBounds(p, y - x, y' - x', fy - fx, fy' - fx');
  }

  lemma PricedLess(p: real, x: real, y: real, fx: real, fy: real)
    requires Priced(p, x, y, fx, fy) && p > 0.0 && y <= x
    ensures fy <= fx
  {
    ProductSign(y - x, p);
  }

  lemma AddBounds(p: real, a: real, b: real, x: real, y: real)
    requires x <= p * a && y <= p * b
    ensures x + y <= p * (a + b)
  {
    assert p * (a + b) == p * a + p * b;
  }

  /** Against the allocation of one common marginal every other one is bounded by that price. */
  lemma AllocationsPriced(legs: seq<Leg>, marginal: real, others: seq<real>, sqrt: real -> real)
    requires ValidLegs(legs) && ExactRoot(sqrt) && marginal > 0.0 && RespectsCaps(legs, others)
    ensures RespectsCaps(legs, AllocationsAt(legs, marginal, sqrt))
    ensures Priced(marginal, SumR(AllocationsAt(legs, marginal, sqrt)), SumR(others),
                   SumR(OutputsOf(legs, AllocationsAt(legs, marginal, sqrt))), SumR(OutputsOf(legs, others)))
  {
    hide Output, AllocationAtMarginal, ExactRoot, Priced;
    var mine := AllocationsAt(legs, marginal, sqrt);
    var fx, fy := OutputsOf(legs, mine), OutputsOf(legs, others);
    forall i | 0 <= i < |legs| ensures Priced(marginal, mine[i], others[i], fx[i], fy[i]) {
      LegWaterLine(legs[i], marginal, others[i], sqrt);
    }
    PricedSum(marginal, mine, others, fx, fy);
  }

  /** Filling every pool to one common marginal yields at least as much as any other
      allocation that respects the caps and spends no more. */
  lemma WaterFillingOptimal(legs: seq<Leg>, marginal: real, others: seq<real>, sqrt: real -> real)
    requires ValidLegs(legs) && ExactRoot(sqrt) && marginal > 0.0 && RespectsCaps(legs, others)
    requires SumR(others) <= SumR(AllocationsAt(legs, marginal, sqrt))
    ensures RespectsCaps(legs, AllocationsAt(legs, marginal, sqrt))
    ensures SumR(OutputsOf(legs, others)) <= SumR(OutputsOf(legs, AllocationsAt(legs, marginal, sqrt)))
  {
    AllocationsPriced(legs, marginal, others, sqrt);
    hide ExactRoot, Priced, AllocationsAt, OutputsOf, SumR;
    var mine := AllocationsAt(legs, marginal, sqrt);
    PricedLess(marginal, SumR(mine), SumR(others), SumR(OutputsOf(legs, mine)), SumR(OutputsOf(legs, others)));
  }

  // ----- bringing whole-unit allocations to the exact total

  function KeyAt(keys: seq<real>, i: nat): real {
    if i < |keys| then keys[i] else 0.0
  }

  function Ascending(keys: seq<real>): (nat, nat) -> bool {
    (i: nat, j: nat) => KeyAt(keys, i) <= KeyAt(keys, j)
  }

  function Descending(keys: seq<real>): (nat, nat) -> bool {
    (i: nat, j: nat) => KeyAt(keys, i) >= KeyAt(keys, j)
  }

  /** Every index once, smaller first in the sense of `le`. */
  ghost predicate OrderOf(order: seq<nat>, n: nat, le: (nat, nat) -> bool) {
    && |order| == n
    && (forall p :: 0 <= p < |order| ==> order[p] < n)
    && (forall i: nat :: i < n ==> i in order)
    && NoDup(order)
    && SortedBy(order, le)
  }

  lemma SortedIndicesOrder(n: nat, le: (nat, nat) -> bool)
    requires TotalPreorder(le)
    ensures OrderOf(Sort(Indices(n), le), n, le)
  {
    var order := Sort(Indices(n), le);
    SortMembers(Indices(n), le);
    SortKeeps(Indices(n), le);
    SortSorts(Indices(n), le);
    NoDupPermuted(Indices(n), order);
    forall i: nat | i < n ensures i in order {
      assert Indices(n)[i] == i;
    }
    forall p | 0 <= p < |order| ensures order[p] < n {
      assert order[p] in Indices(n);
    }
  }

  ghost function PositionOf(order: seq<nat>, n: nat, le: (nat, nat) -> bool, i: nat): (p: nat)
    requires OrderOf(order, n, le) && i < n
    ensures p < |order| && order[p] == i
  {
    assert i in order;
    var p: nat :| p < |order| && order[p] == i;
    p
  }

  /** Take `excess` away along `order`, emptying each leg before touching the next. */
  method Drain(a: array<nat>, order: seq<nat>, excess: nat, ghost le: (nat, nat) -> bool)
    requires OrderOf(order, a.Length, le) && forall i: nat :: le(i, i)
    requires excess <= Sum(a[..])
    modifies a
    ensures Sum(a[..]) == Sum(old(a[..])) - excess
    ensures forall i :: 0 <= i < a.Length ==> a[i] <= old(a[i])
    ensures forall i, j :: 0 <= i < a.Length && 0 <= j < a.Length && a[j] < old(a[j]) && !le(j, i) ==> a[i] == 0
  {
    hide Sum;
    var left: nat := excess;
    var k := 0;
    while k < |order| && left > 0
      invariant 0 <= k <= |order|
      invariant Sum(a[..]) + excess == Sum(old(a[..])) + left
      invariant forall i :: 0 <= i < a.Length ==> a[i] <= old(a[i])
      invariant forall p :: k <= p < |order| ==> a[order[p]] == old(a[order[p]])
      invariant forall p :: 0 <= p < k - 1 ==> a[order[p]] == 0
      invariant left > 0 && k > 0 ==> a[order[k - 1]] == 0
    {
      var idx := order[k];
      var removed := Min(a[idx], left);
      SumUpdate(a[..], idx, a[idx] - removed);
      ghost var before := a[..];
      a[idx] := a[idx] - removed;
      assert a[..] == before[idx := a[idx]];
      left := left - removed;
      k := k + 1;
    }
    assert left == 0 by {
      if left > 0 {
        AllZero(a[..], order, le);
      }
    }
    forall i, j | 0 <= i < a.Length && 0 <= j < a.Length && a[j] < old(a[j]) && !le(j, i)
      ensures a[i] == 0
    {
      var p, q := PositionOf(order, a.Length, le, i), PositionOf(order, a.Length, le, j);
      assert p < q && q < k;
    }
  }

  lemma AllZero(s: seq<nat>, order: seq<nat>, le: (nat, nat) -> bool)
    requires OrderOf(order, |s|, le)
    requires forall p :: 0 <= p < |order| ==> s[order[p]] == 0
    ensures Sum(s) == 0
  {
    forall i | 0 <= i < |s| ensures s[i] == 0 {
      var p := PositionOf(order, |s|, le, i);
    }
    SumOfZeros(s);
  }

  /** What a leg may still take; `saturating_sub` below a cap, everything without one. */
  function CapacityRemaining(leg: Leg, taken: nat): nat {
    if leg.capacity.Some? then SatSub(leg.capacity.value, taken) else U128_MAX
  }

  ghost predicate Full(leg: Leg, taken: nat) {
    leg.capacity.Some? && taken >= leg.capacity.value
  }

  ghost predicate UnitsWithinCaps(legs: seq<Leg>, amounts: seq<nat>) {
    |amounts| == |legs| &&
    forall i :: 0 <= i < |legs| && legs[i].capacity.Some? ==> amounts[i] <= legs[i].capacity.value
  }

  /** The caps can hold `total`. */
  ghost predicate Feasible(legs: seq<Leg>, total: nat) {
    (exists i :: 0 <= i < |legs| && legs[i].capacity.None?) || total <= Sum(Caps(legs))
  }

  function Caps(legs: seq<Leg>): seq<nat> {
    seq(|legs|, i requires 0 <= i < |legs| => if legs[i].capacity.Some? then legs[i].capacity.value else 0)
  }

  /** No leg loses units, and a leg that gains some leaves no room on any leg that goes strictly before it. */
  ghost predicate GainedInOrder(legs: seq<Leg>, before: seq<nat>, after: seq<nat>, le: (nat, nat) -> bool) {
    && |before| == |after| == |legs|
    && (forall i :: 0 <= i < |legs| ==> after[i] >= before[i])
    && forall i, j :: 0 <= i < |legs| && 0 <= j < |legs| && after[j] > before[j] && !le(j, i) ==> Full(legs[i], after[i])
  }

  /** How far the legs have been filled along `order`: the first `k` of them, all but the last to the brim. */
  ghost predicate Filling(legs: seq<Leg>, before: seq<nat>, after: seq<nat>, order: seq<nat>, k: nat, left: nat) {
    && |before| == |after| == |legs| == |order| && k <= |order|
    && (forall p :: 0 <= p < |order| ==> order[p] < |legs|)
    && (forall i :: 0 <= i < |legs| ==> after[i] >= before[i])
    && (forall p :: k <= p < |order| ==> after[order[p]] == before[order[p]])
    && (forall p :: 0 <= p < k - 1 ==> Full(legs[order[p]], after[order[p]]))
    && (left > 0 && k > 0 ==> Full(legs[order[k - 1]], after[order[k - 1]]))
  }

  lemma FillingStarts(legs: seq<Leg>, before: seq<nat>, order: seq<nat>, left: nat, le: (nat, nat) -> bool)
    requires |before| == |legs| && OrderOf(order, |legs|, le)
    ensures Filling(legs, before, before, order, 0, left)
  {}

  lemma FillingStep(legs: seq<Leg>, before: seq<nat>, after: seq<nat>, order: seq<nat>, k: nat, left: nat, le: (nat, nat) -> bool)
    requires OrderOf(order, |legs|, le) && Filling(legs, before, after, order, k, left) && left > 0 && k < |order|
    ensures var idx := order[k];
      var added := Min(CapacityRemaining(legs[idx], after[idx]), left);
      after[idx] + left <= U128_MAX ==>
        Filling(legs, before, after[idx := after[idx] + added], order, k + 1, left - added)
  {
    hide SortedBy;
  }

  lemma StaysWithinCaps(legs: seq<Leg>, amounts: seq<nat>, idx: nat, left: nat)
    requires UnitsWithinCaps(legs, amounts) && idx < |legs|
    ensures UnitsWithinCaps(legs, amounts[idx := amounts[idx] + Min(CapacityRemaining(legs[idx], amounts[idx]), left)])
  {}

  /** What the loop keeps: nothing is lost, no cap is exceeded, and the legs are filled along the order. */
  ghost predicate FillState(legs: seq<Leg>, before: seq<nat>, now: seq<nat>, order: seq<nat>, k: nat, left: nat, total: nat) {
    Sum(now) + left == total && UnitsWithinCaps(legs, now) && Filling(legs, before, now, order, k, left)
  }

  /** One pass of the loop. */
  lemma FillOne(legs: seq<Leg>, before: seq<nat>, now: seq<nat>, order: seq<nat>, k: nat, left: nat, total: nat,
                le: (nat, nat) -> bool)
    returns (filled: seq<nat>)
    requires OrderOf(order, |legs|, le) && FillState(legs, before, now, order, k, left, total)
    requires left > 0 && k < |order| && total <= U128_MAX
    ensures |now| == |legs| && order[k] < |legs|
    ensures var added := Min(CapacityRemaining(legs[order[k]], now[order[k]]), left);
      && filled == now[order[k] := SatAdd(now[order[k]], added)] && 0 <= added <= left
      && FillState(legs, before, filled, order, k + 1, left - added, total)
  {
    var idx := order[k];
    SumBound(now, idx);
    var added := Min(CapacityRemaining(legs[idx], now[idx]), left);
    SumUpdate(now, idx, now[idx] + added);
    StaysWithinCaps(legs, now, idx, left);
    FillingStep(legs, before, now, order, k, left, le);
    hide Sum, OrderOf, Filling, UnitsWithinCaps;
    filled := now[idx := now[idx] + added];
  }

  /** What gained units comes no later in the order than the last leg looked at, and all before that are full. */
  lemma FilledInOrder(legs: seq<Leg>, before: seq<nat>, after: seq<nat>, order: seq<nat>, k: nat, left: nat,
                      le: (nat, nat) -> bool)
    requires OrderOf(order, |legs|, le) && Filling(legs, before, after, order, k, left) && forall i: nat :: le(i, i)
    ensures GainedInOrder(legs, before, after, le)
  {
    hide Full;
    forall i, j | 0 <= i < |legs| && 0 <= j < |legs| && after[j] > before[j] && !le(j, i)
      ensures Full(legs[i], after[i])
    {
      FullBefore(legs, before, after, order, k, left, le, i, j);
    }
  }

  lemma FullBefore(legs: seq<Leg>, before: seq<nat>, after: seq<nat>, order: seq<nat>, k: nat, left: nat,
                   le: (nat, nat) -> bool, i: nat, j: nat)
    requires OrderOf(order, |legs|, le) && Filling(legs, before, after, order, k, left) && le(i, i)
    requires i < |legs| && j < |legs| && after[j] > before[j] && !le(j, i)
    ensures Full(legs[i], after[i])
  {
    var p, q := PositionOf(order, |legs|, le, i), PositionOf(order, |legs|, le, j);
    hide Full, NoDup;
    assert q < k;
    assert p < q;
  }

  /** If the whole order was walked and something is left, the caps cannot hold it. */
  lemma FilledUp(legs: seq<Leg>, before: seq<nat>, after: seq<nat>, order: seq<nat>, left: nat, le: (nat, nat) -> bool)
    requires OrderOf(order, |legs|, le) && Filling(legs, before, after, order, |order|, left) && left > 0
    ensures !Feasible(legs, Sum(after) + left)
  {
    hide Sum, Feasible, Full;
    OrderFull(legs, after, order, le);
    AllFull(legs, after, left);
  }

  /** Hand out `missing` along `order`, filling each leg before touching the next. */
  method Fill(legs: seq<Leg>, a: array<nat>, order: seq<nat>, missing: nat, ghost le: (nat, nat) -> bool)
    returns (left: nat)
    requires a.Length == |legs|
    requires OrderOf(order, a.Length, le) && forall i: nat :: le(i, i)
    requires UnitsWithinCaps(legs, a[..])
    requires Sum(a[..]) + missing <= U128_MAX
    modifies a
    ensures Sum(a[..]) + left == Sum(old(a[..])) + missing
    ensures UnitsWithinCaps(legs, a[..])
    ensures Feasible(legs, Sum(old(a[..])) + missing) ==> left == 0
    ensures GainedInOrder(legs, old(a[..]), a[..], le)
  {
    assert |order| == a.Length && forall p :: 0 <= p < |order| ==> order[p] < a.Length;
    ghost var was, now, total := a[..], a[..], Sum(a[..]) + missing;
    FillingStarts(legs, was, order, missing, le);
    hide Sum, Feasible, OrderOf, Filling, GainedInOrder, UnitsWithinCaps;
    assert FillState(legs, was, now, order, 0, missing, total);
    left := missing;
    var k := 0;
    while k < |order| && left > 0
      invariant 0 <= k <= |order| && a[..] == now && FillState(legs, was, now, order, k, left, total)
    {
      hide FillState;
      var idx := order[k];
      assert a[idx] == now[idx];
      now := FillOne(legs, was, now, order, k, left, total, le);
      var added := Min(CapacityRemaining(legs[idx], a[idx]), left);
      a[idx] := SatAdd(a[idx], added);
      left := left - added;
      k := k + 1;
    }
    FilledInOrder(legs, was, now, order, k, left, le);
    if left > 0 {
      FilledUp(legs, was, now, order, left, le);
    }
  }

  lemma OrderFull(legs: seq<Leg>, amounts: seq<nat>, order: seq<nat>, le: (nat, nat) -> bool)
    requires |amounts| == |legs| && OrderOf(order, |legs|, le)
    requires forall p :: 0 <= p < |order| ==> Full(legs[order[p]], amounts[order[p]])
    ensures forall i :: 0 <= i < |legs| ==> Full(legs[i], amounts[i])
  {
    hide Full;
    forall i | 0 <= i < |legs| ensures Full(legs[i], amounts[i]) {
      var p := PositionOf(order, |legs|, le, i);
    }
  }

  lemma AllFull(legs: seq<Leg>, amounts: seq<nat>, left: nat)
    requires |amounts| == |legs| && forall i :: 0 <= i < |legs| ==> Full(legs[i], amounts[i])
    ensures left > 0 ==> !Feasible(legs, Sum(amounts) + left)
  {
    hide Sum;
    SumMonotone(Caps(legs), amounts);
  }

  lemma KeyOrders(keys: seq<real>)
    ensures TotalPreorder(Ascending(keys)) && TotalPreorder(Descending(keys))
    ensures forall i: nat :: Ascending(keys)(i, i) && Descending(keys)(i, i)
  {}

  function MarginalsOf(legs: seq<Leg>, amounts: seq<nat>): seq<real>
    requires |legs| == |amounts| && ValidLegs(legs)
  {
    seq(|legs|, i requires 0 <= i < |legs| => MarginalAt(legs[i], amounts[i] as real))
  }

  /** The pools whose marginal is lowest give first: a pool that lost units left no
      units on any pool with a lower marginal. */
  ghost predicate ShrunkInOrder(keys: seq<real>, before: seq<nat>, after: seq<nat>)
    requires |keys| == |before| == |after|
  {
    && (forall i :: 0 <= i < |keys| ==> after[i] <= before[i])
    && (forall i, j :: 0 <= i < |keys| && 0 <= j < |keys| && after[j] < before[j] && keys[i] < keys[j] ==> after[i] == 0)
  }

  /** The pools whose marginal is highest take first: a pool that gained units left no
      room on any pool with a higher marginal. */
  ghost predicate GrownInOrder(legs: seq<Leg>, keys: seq<real>, before: seq<nat>, after: seq<nat>)
    requires |legs| == |keys| == |before| == |after|
  {
    && (forall i :: 0 <= i < |keys| ==> after[i] >= before[i])
    && (forall i, j :: 0 <= i < |keys| && 0 <= j < |keys| && after[j] > before[j] && keys[i] > keys[j] ==> Full(legs[i], after[i]))
  }

  lemma HighestGained(legs: seq<Leg>, keys: seq<real>, before: seq<nat>, after: seq<nat>)
    requires |keys| == |legs| && GainedInOrder(legs, before, after, Descending(keys))
    ensures GrownInOrder(legs, keys, before, after)
  {}

  lemma LessFits(legs: seq<Leg>, before: seq<nat>, after: seq<nat>)
    requires UnitsWithinCaps(legs, before) && |after| == |before|
    requires forall i :: 0 <= i < |before| ==> after[i] <= before[i]
    ensures UnitsWithinCaps(legs, after)
  {}

  /** `rebalance_to_total`. `None` is the 128-bit overflow of the first sum. */
  method RebalanceToTotal(legs: seq<Leg>, allocations: array<nat>, totalIn: nat) returns (r: Option<bool>)
    requires ValidLegs(legs) && allocations.Length == |legs| && totalIn <= U128_MAX
    requires UnitsWithinCaps(legs, allocations[..])
    modifies allocations
    ensures r.None? <==> Sum(old(allocations[..])) > U128_MAX
    ensures UnitsWithinCaps(legs, allocations[..])
    ensures r.Some? && Feasible(legs, totalIn) ==> r.value
    ensures r.Some? && r.value ==> Sum(allocations[..]) == totalIn
    ensures r.Some? ==> var keys := MarginalsOf(legs, old(allocations[..]));
      if Sum(old(allocations[..])) > totalIn then ShrunkInOrder(keys, old(allocations[..]), allocations[..])
      else GrownInOrder(legs, keys, old(allocations[..]), allocations[..])
  {
    hide Slope, Sum, Feasible, ValidLegs, OrderOf, UnitsWithinCaps, TotalPreorder;
    var taken := Sum(allocations[..]);
    if taken > U128_MAX {
      return None;
    }
    var keys := MarginalsOf(legs, allocations[..]);
    assert |keys| == |legs|;
    hide MarginalsOf;
    KeyOrders(keys);
    if taken > totalIn {
      SortedIndicesOrder(|legs|, Ascending(keys));
      Drain(allocations, Sort(Indices(|legs|), Ascending(keys)), taken - totalIn, Ascending(keys));
      LessFits(legs, old(allocations[..]), allocations[..]);
      taken := Sum(allocations[..]);
    }
    if taken < totalIn {
      SortedIndicesOrder(|legs|, Descending(keys));
      var left := Fill(legs, allocations, Sort(Indices(|legs|), Descending(keys)), totalIn - taken, Descending(keys));
      HighestGained(legs, keys, old(allocations[..]), allocations[..]);
    }
    return Some(Sum(allocations[..]) == totalIn);
  }

  // ----- bisection for the common marginal

  datatype Bracket = Bracket(low: real, high: real)

  predicate Overfills(legs: seq<Leg>, total: nat, marginal: real, sqrt: real -> real)
    requires ValidLegs(legs)
  {
    SumR(AllocationsAt(legs, marginal, sqrt)) > total as real
  }

  function Halve(legs: seq<Leg>, total: nat, sqrt: real -> real, b: Bracket): Bracket
    requires ValidLegs(legs)
  {
    var mid := (b.low + b.high) / 2.0;
    if Overfills(legs, total, mid, sqrt) then Bracket(mid, b.high) else Bracket(b.low, mid)
  }

  function Bisect(legs: seq<Leg>, total: nat, sqrt: real -> real, start: real, n: nat): Bracket
    requires ValidLegs(legs)
  {
    if n == 0 then Bracket(0.0, start) else Halve(legs, total, sqrt, Bisect(legs, total, sqrt, start, n - 1))
  }

  /** The largest initial marginal: no leg takes anything at or above it. */
  function StartMarginal(legs: seq<Leg>): (m: real)
    requires ValidLegs(legs)
    ensures m >= 0.0
    ensures forall i :: 0 <= i < |legs| ==> MarginalAt(legs[i], 0.0) <= m
    ensures legs != [] ==> m > 0.0
  {
    if legs == [] then 0.0
    else
      SlopeTimes(legs[|legs| - 1].curve, 0.0);
      RMax(StartMarginal(legs[..|legs| - 1]), MarginalAt(legs[|legs| - 1], 0.0))
  }

  function Pow2(n: nat): real {
    if n == 0 then 1.0 else 2.0 * Pow2(n - 1)
  }

  /** The low marginal is zero or hands out too much, the high one never does, and the
      gap halves with every step. */
  ghost predicate TrueBracket(legs: seq<Leg>, total: nat, sqrt: real -> real, b: Bracket)
    requires ValidLegs(legs)
  {
    && 0.0 <= b.low < b.high
    && (b.low == 0.0 || Overfills(legs, total, b.low, sqrt))
    && !Overfills(legs, total, b.high, sqrt)
  }

  lemma {:induction false} ZeroSumR(xs: seq<real>)
    requires forall i :: 0 <= i < |xs| ==> xs[i] == 0.0
    ensures SumR(xs) == 0.0
  {
    if xs != [] {
      ZeroSumR(xs[..|xs| - 1]);
    }
  }

  lemma {:induction false} BisectKeepsBracket(legs: seq<Leg>, total: nat, sqrt: real -> real, n: nat)
    requires ValidLegs(legs) && legs != []
    ensures TrueBracket(legs, total, sqrt, Bisect(legs, total, sqrt, StartMarginal(legs), n))
  {
    hide Slope, Overfills, AllocationAtMarginal;
    var start := StartMarginal(legs);
    if n == 0 {
      StartNeverOverfills(legs, total, sqrt);
    } else {
      BisectKeepsBracket(legs, total, sqrt, n - 1);
    }
  }

  lemma StartNeverOverfills(legs: seq<Leg>, total: nat, sqrt: real -> real)
    requires ValidLegs(legs) && legs != []
    ensures !Overfills(legs, total, StartMarginal(legs), sqrt)
  {
    hide Slope;
    ZeroSumR(AllocationsAt(legs, StartMarginal(legs), sqrt));
  }

  function Gap(b: Bracket, scale: real): real {
    (b.high - b.low) * scale
  }

  lemma {:induction false} BisectHalvesGap(legs: seq<Leg>, total: nat, sqrt: real -> real, start: real, n: nat)
    requires ValidLegs(legs)
    ensures Gap(Bisect(legs, total, sqrt, start, n), Pow2(n)) == start
  {
    if n > 0 {
      hide Gap, Halve;
      BisectHalvesGap(legs, total, sqrt, start, n - 1);
      HalfGap(legs, total, sqrt, Bisect(legs, total, sqrt, start, n - 1), Pow2(n - 1));
    }
  }

  lemma HalfGap(legs: seq<Leg>, total: nat, sqrt: real -> real, b: Bracket, scale: real)
    requires ValidLegs(legs)
    ensures Gap(Halve(legs, total, sqrt, b), 2.0 * scale) == Gap(b, scale)
  {
    hide Overfills;
    var half := (b.high - b.low) / 2.0;
    assert half * (2.0 * scale) == (b.high - b.low) * scale;
    var h := Halve(legs, total, sqrt, b);
    assert h.high - h.low == half;
  }

  /** `amount.round()`, saturated to 128 bits and cut off at the cap. */
  function RoundedUnits(leg: Leg, amount: real): (units: nat)
    requires amount >= 0.0
    ensures leg.capacity.Some? ==> units <= leg.capacity.value
    ensures units as real <= amount + 0.5 && units <= U128_MAX
    ensures units as real > amount - 0.5 || units == U128_MAX || (leg.capacity.Some? && units == leg.capacity.value)
  {
    var rounded := (amount + 0.5).Floor;
    Min(Min(rounded, U128_MAX), if leg.capacity.Some? then leg.capacity.value else U128_MAX)
  }

  function RoundedAt(legs: seq<Leg>, marginal: real, sqrt: real -> real): seq<nat>
    requires ValidLegs(legs)
  {
    seq(|legs|, i requires 0 <= i < |legs| => RoundedUnits(legs[i], AllocationAtMarginal(legs[i], marginal, sqrt)))
  }

  lemma {:induction false} RoundingCostsHalfAUnit(units: seq<nat>, amounts: seq<real>)
    requires |units| == |amounts|
    requires forall i :: 0 <= i < |units| ==> units[i] as real <= amounts[i] + 0.5
    ensures Sum(units) as real <= SumR(amounts) + |units| as real / 2.0
  {
    if units != [] {
      var n := |units| - 1;
      RoundingCostsHalfAUnit(units[..n], amounts[..n]);
    }
  }

  function FinalMarginal(legs: seq<Leg>, total: nat, sqrt: real -> real): real
    requires ValidLegs(legs)
  {
    Bisect(legs, total, sqrt, StartMarginal(legs), 80).high
  }

  /** The first 128-bit sum of the rebalance overflows. */
  predicate RoundingOverflows(legs: seq<Leg>, total: nat, sqrt: real -> real)
    requires ValidLegs(legs)
  {
    |legs| > 1 && Sum(RoundedAt(legs, FinalMarginal(legs, total, sqrt), sqrt)) > U128_MAX
  }

  /** Half a unit per pool of headroom rules the overflow out. */
  lemma HeadroomPreventsOverflow(legs: seq<Leg>, total: nat, sqrt: real -> real)
    requires ValidLegs(legs) && 2 * total + |legs| <= 2 * U128_MAX
    ensures !RoundingOverflows(legs, total, sqrt)
  {
    if |legs| > 1 {
      hide AllocationAtMarginal, Bisect, StartMarginal, RoundedUnits;
      BisectKeepsBracket(legs, total, sqrt, 80);
      var h := FinalMarginal(legs, total, sqrt);
      RoundingCostsHalfAUnit(RoundedAt(legs, h, sqrt), AllocationsAt(legs, h, sqrt));
    }
  }

  /** The saturating sum of the caps, or `None` when some leg has no cap. */
  function FiniteCapacitySum(legs: seq<Leg>): (sum: Option<nat>)
    ensures sum.None? <==> exists i :: 0 <= i < |legs| && legs[i].capacity.None?
  {
    if legs == [] then Some(0)
    else
      var n := |legs| - 1;
      var rest := FiniteCapacitySum(legs[..n]);
      assert legs == legs[..n] + [legs[n]];
      if rest.None? || legs[n].capacity.None? then
        assert legs[n].capacity.None? || exists i :: 0 <= i < n && legs[..n][i].capacity.None?;
        None
      else Some(SatAdd(rest.value, legs[n].capacity.value))
  }

  lemma {:induction false} FiniteCapacityIsSum(legs: seq<Leg>)
    ensures FiniteCapacitySum(legs).Some? ==> FiniteCapacitySum(legs).value == Min(Sum(Caps(legs)), U128_MAX)
  {
    if legs != [] {
      var n := |legs| - 1;
      FiniteCapacityIsSum(legs[..n]);
      assert Caps(legs)[..n] == Caps(legs[..n]);
    }
  }

  /** The order in which `solve_allocations` leaves the rounded allocation. */
  ghost predicate Rebalanced(legs: seq<Leg>, total: nat, sqrt: real -> real, amounts: seq<nat>)
    requires ValidLegs(legs)
  {
    var rounded := RoundedAt(legs, FinalMarginal(legs, total, sqrt), sqrt);
    var keys := MarginalsOf(legs, rounded);
    && |amounts| == |legs|
    && if Sum(rounded) > total then ShrunkInOrder(keys, rounded, amounts) else GrownInOrder(legs, keys, rounded, amounts)
  }

  /** An allocation of exactly the total within the caps, reached from the water-filling one. */
  ghost predicate WaterLevel(legs: seq<Leg>, total: nat, sqrt: real -> real, amounts: seq<nat>)
    requires ValidLegs(legs)
  {
    && Sum(amounts) == total && UnitsWithinCaps(legs, amounts)
    && (|legs| > 1 ==> Rebalanced(legs, total, sqrt, amounts))
  }

  datatype Outcome = Allocated(amounts: seq<nat>) | NoSolution | Overflow

  /** `solve_allocations` */
  method SolveAllocations(legs: seq<Leg>, totalIn: nat, sqrt: real -> real) returns (r: Outcome)
    requires ValidLegs(legs) && totalIn <= U128_MAX
    ensures r.Overflow? <==> Feasible(legs, totalIn) && RoundingOverflows(legs, totalIn, sqrt)
    ensures r.NoSolution? <==> legs == [] || !Feasible(legs, totalIn)
                               || (|legs| > 1 && totalIn == 0 && !RoundingOverflows(legs, totalIn, sqrt))
    ensures r.Allocated? ==> WaterLevel(legs, totalIn, sqrt, r.amounts)
  {
    hide Slope, AllocationAtMarginal, ShrunkInOrder, GrownInOrder, StartMarginal, RoundedUnits, SumR;
    if legs == [] {
      return NoSolution;
    }
    if |legs| == 1 {
      SingleLeg(legs[0], totalIn);
      assert legs == [legs[0]];
      if legs[0].capacity.Some? && totalIn > legs[0].capacity.value {
        return NoSolution;
      }
      return Allocated([totalIn]);
    }
    FiniteCapacityIsSum(legs);
    var capacity := FiniteCapacitySum(legs);
    if capacity.Some? && totalIn > capacity.value {
      return NoSolution;
    }

    var high := StartMarginal(legs);
    var low := 0.0;
    for step := 0 to 80
      invariant Bracket(low, high) == Bisect(legs, totalIn, sqrt, StartMarginal(legs), step)
    {
      var mid := (low + high) / 2.0;
      if SumR(AllocationsAt(legs, mid, sqrt)) > totalIn as real {
        low := mid;
      } else {
        high := mid;
      }
    }

    var rounded := RoundedAt(legs, high, sqrt);
    var allocations := new nat[|legs|](i requires 0 <= i < |legs| => rounded[i]);
    assert allocations[..] == rounded;
    var balanced := RebalanceToTotal(legs, allocations, totalIn);
    if balanced.None? {
      return Overflow;
    }
    if !balanced.value || !exists i :: 0 <= i < |legs| && allocations[i] > 0 {
      SumPositive(allocations[..]);
      return NoSolution;
    }
    SumPositive(allocations[..]);
    return Allocated(allocations[..]);
  }

  lemma SingleLeg(leg: Leg, total: nat)
    ensures Feasible([leg], total) <==> leg.capacity.None? || total <= leg.capacity.value
    ensures Sum([total]) == total
  {
    SumPush([], total);
    assert [] + [total] == [total];
    var cap := if leg.capacity.Some? then leg.capacity.value else 0;
    SumPush([], cap);
    assert Caps([leg]) == [] + [cap];
    if leg.capacity.None? {
      assert [leg][0].capacity.None?;
    }
  }

  lemma {:induction false} SumPositive(s: seq<nat>)
    ensures Sum(s) > 0 <==> exists i :: 0 <= i < |s| && s[i] > 0
  {
    if exists i :: 0 <= i < |s| && s[i] > 0 {
      var i :| 0 <= i < |s| && s[i] > 0;
      SumBound(s, i);
    } else {
      SumOfZeros(s);
    }
  }

  /** The final marginal times what the bisected allocation leaves unspent. */
  function Unspent(legs: seq<Leg>, total: nat, sqrt: real -> real): real
    requires ValidLegs(legs)
  {
    var price := FinalMarginal(legs, total, sqrt);
    price * (total as real - SumR(AllocationsAt(legs, price, sqrt)))
  }

  /** Before rounding, the bisected allocation spends at most the total and falls short of
      any allocation of the total by no more than the final marginal times the unspent rest. */
  lemma FinalAllocationNearOptimal(legs: seq<Leg>, total: nat, others: seq<real>, sqrt: real -> real)
    requires ValidLegs(legs) && legs != [] && ExactRoot(sqrt) && RespectsCaps(legs, others)
    requires SumR(others) <= total as real
    ensures FinalMarginal(legs, total, sqrt) > 0.0
    ensures RespectsCaps(legs, AllocationsAt(legs, FinalMarginal(legs, total, sqrt), sqrt))
    ensures SumR(AllocationsAt(legs, FinalMarginal(legs, total, sqrt), sqrt)) <= total as real
    ensures SumR(OutputsOf(legs, others)) <=
            SumR(OutputsOf(legs, AllocationsAt(legs, FinalMarginal(legs, total, sqrt), sqrt))) + Unspent(legs, total, sqrt)
  {
    FinalSpendsAtMost(legs, total, sqrt);
    hide Output, AllocationAtMarginal, ExactRoot, Priced, SumR, FinalMarginal, Unspent;
    var price := FinalMarginal(legs, total, sqrt);
    var mine := AllocationsAt(legs, price, sqrt);
    AllocationsPriced(legs, price, others, sqrt);
    UnspentBounds(legs, total, sqrt, SumR(OutputsOf(legs, mine)), SumR(OutputsOf(legs, others)), SumR(others));
  }

  lemma UnspentBounds(legs: seq<Leg>, total: nat, sqrt: real -> real, fx: real, fy: real, y: real)
    requires ValidLegs(legs) && FinalMarginal(legs, total, sqrt) > 0.0 && y <= total as real
    requires var price := FinalMarginal(legs, total, sqrt); Priced(price, SumR(AllocationsAt(legs, price, sqrt)), y, fx, fy)
    ensures fy <= fx + Unspent(legs, total, sqrt)
  {
    hide Priced, SumR, AllocationsAt, FinalMarginal, ValidLegs;
    var price := FinalMarginal(legs, total, sqrt);
    PricedUpTo(price, SumR(AllocationsAt(legs, price, sqrt)), y, fx, fy, total as real);
  }

  lemma FinalSpendsAtMost(legs: seq<Leg>, total: nat, sqrt: real -> real)
    requires ValidLegs(legs) && legs != []
    ensures FinalMarginal(legs, total, sqrt) > 0.0
    ensures SumR(AllocationsAt(legs, FinalMarginal(legs, total, sqrt), sqrt)) <= total as real
  {
    hide AllocationsAt, SumR, StartMarginal, Bisect;
    BisectKeepsBracket(legs, total, sqrt, 80);
  }

  lemma PricedUpTo(p: real, x: real, y: real, fx: real, fy: real, limit: real)
    requires Priced(p, x, y, fx, fy) && p > 0.0 && y <= limit
    ensures fy <= fx + p * (limit - x)
  {
    ProductMono(y - x, limit - x, p);
  }

  // ----- what rounding and rebalancing cost

  function AsReals(amounts: seq<nat>): seq<real> {
    seq(|amounts|, i requires 0 <= i < |amounts| => amounts[i] as real)
  }

  function Positive(x: real): real {
    RMax(x, 0.0)
  }

  /** How much less than `from` each entry of `to` is, where it is less. */
  function Shortfalls(from: seq<real>, to: seq<nat>): seq<real>
    requires |from| == |to|
  {
    seq(|from|, i requires 0 <= i < |from| => Positive(from[i] - to[i] as real))
  }

  /** Taking less than `m` loses a pool at most its initial marginal per unit. */
  lemma LegLoss(k: Curve, start: real, m: real, n: real)
    requires Proper(k) && m >= 0.0 && n >= 0.0 && Slope(k, 0.0) <= start
    ensures Priced(start, 0.0, Positive(m - n), Output(k, n), Output(k, m))
  {
    hide Output, Slope;
    if m <= n {
      OutputMonotone(k, m, n);
    } else {
      Tangent(k, n, m);
      SlopeAntitone(k, 0.0, n);
      ScaleBoth(Slope(k, n), start, m - n);
    }
  }

  lemma {:induction false} SumRBound(xs: seq<real>, i: nat)
    requires i < |xs| && forall j :: 0 <= j < |xs| ==> xs[j] >= 0.0
    ensures xs[i] <= SumR(xs)
  {
    var n := |xs| - 1;
    if i < n {
      SumRBound(xs[..n], i);
    } else if n > 0 {
      SumRBound(xs[..n], 0);
    }
  }

  lemma RoundedFromBelow(leg: Leg, amount: real)
    requires ValidLeg(leg) && WithinCap(leg, amount) && amount <= U128_MAX as real
    ensures amount - 0.5 <= RoundedUnits(leg, amount) as real
  {}

  /** Term by term, half a unit for the rounding and what the rebalance took away. */
  lemma {:induction false} ShortfallSum(from: seq<real>, rounded: seq<nat>, to: seq<nat>)
    requires |from| == |rounded| == |to|
    requires forall i :: 0 <= i < |from| ==> from[i] - 0.5 <= rounded[i] as real && to[i] <= rounded[i]
    ensures SumR(Shortfalls(from, to)) <= |from| as real / 2.0 + (Sum(rounded) as real - Sum(to) as real)
  {
    if from != [] {
      var n := |from| - 1;
      ShortfallSum(from[..n], rounded[..n], to[..n]);
      assert Shortfalls(from, to)[..n] == Shortfalls(from[..n], to[..n]);
      assert Shortfalls(from, to)[n] <= 0.5 + (rounded[n] as real - to[n] as real);
    } else {
      assert Shortfalls(from, to) == [];
    }
  }

  lemma {:induction false} ShortfallOfRounding(from: seq<real>, to: seq<nat>)
    requires |from| == |to| && forall i :: 0 <= i < |from| ==> from[i] - 0.5 <= to[i] as real
    ensures SumR(Shortfalls(from, to)) <= |from| as real / 2.0
  {
    if from != [] {
      var n := |from| - 1;
      ShortfallOfRounding(from[..n], to[..n]);
      assert Shortfalls(from, to)[..n] == Shortfalls(from[..n], to[..n]);
    } else {
      assert Shortfalls(from, to) == [];
    }
  }

  /** No pool ends up more than a unit short on average. */
  lemma RebalanceShortfall(legs: seq<Leg>, total: nat, sqrt: real -> real, amounts: seq<nat>)
    requires ValidLegs(legs) && legs != [] && total <= U128_MAX
    requires Rebalanced(legs, total, sqrt, amounts) && Sum(amounts) == total
    ensures SumR(Shortfalls(AllocationsAt(legs, FinalMarginal(legs, total, sqrt), sqrt), amounts)) <= |legs| as real
  {
    hide AllocationAtMarginal, Bisect, StartMarginal, RoundedUnits, Slope, Shortfalls;
    BisectKeepsBracket(legs, total, sqrt, 80);
    var price := FinalMarginal(legs, total, sqrt);
    var mine, rounded := AllocationsAt(legs, price, sqrt), RoundedAt(legs, price, sqrt);
    forall i | 0 <= i < |legs| ensures mine[i] - 0.5 <= rounded[i] as real {
      SumRBound(mine, i);
      RoundedFromBelow(legs[i], mine[i]);
    }
    if Sum(rounded) > total {
      RoundingCostsHalfAUnit(rounded, mine);
      ShortfallSum(mine, rounded, amounts);
    } else {
      ShortfallOfRounding(mine, amounts);
    }
  }

  lemma LegsLoss(legs: seq<Leg>, start: real, mine: seq<real>, amounts: seq<nat>)
    requires ValidLegs(legs) && |mine| == |amounts| == |legs|
    requires forall i :: 0 <= i < |legs| ==> mine[i] >= 0.0 && MarginalAt(legs[i], 0.0) <= start
    ensures Priced(start, 0.0, SumR(Shortfalls(mine, amounts)), SumR(OutputsOf(legs, AsReals(amounts))), SumR(OutputsOf(legs, mine)))
  {
    hide Output, Slope, Priced;
    var short, none := Shortfalls(mine, amounts), seq(|legs|, _ => 0.0);
    var fx, fy := OutputsOf(legs, AsReals(amounts)), OutputsOf(legs, mine);
    forall i | 0 <= i < |legs| ensures Priced(start, none[i], short[i], fx[i], fy[i]) {
      LegLoss(legs[i].curve, start, mine[i], amounts[i] as real);
    }
    PricedSum(start, none, short, fx, fy);
    ZeroSumR(none);
  }

  lemma PricedFromZero(p: real, y: real, fx: real, fy: real, limit: real)
    requires Priced(p, 0.0, y, fx, fy) && p > 0.0 && y <= limit
    ensures fy <= fx + p * limit
  {
    ProductMono(y, limit, p);
  }

  /** Rounding and rebalancing cost at most the largest initial marginal per pool. */
  lemma RebalanceLoss(legs: seq<Leg>, total: nat, sqrt: real -> real, amounts: seq<nat>)
    requires ValidLegs(legs) && legs != [] && total <= U128_MAX
    requires Rebalanced(legs, total, sqrt, amounts) && Sum(amounts) == total
    ensures |amounts| == |legs|
    ensures SumR(OutputsOf(legs, AllocationsAt(legs, FinalMarginal(legs, total, sqrt), sqrt))) <=
            SumR(OutputsOf(legs, AsReals(amounts))) + StartMarginal(legs) * |legs| as real
  {
    hide Output, Slope, AllocationAtMarginal, Priced, FinalMarginal, Rebalanced, SumR, Shortfalls, StartMarginal, Sum;
    var start := StartMarginal(legs);
    var mine := AllocationsAt(legs, FinalMarginal(legs, total, sqrt), sqrt);
    AmountCount(legs, total, sqrt, amounts);
    RebalanceShortfall(legs, total, sqrt, amounts);
    LegsLoss(legs, start, mine, amounts);
    PricedFromZero(start, SumR(Shortfalls(mine, amounts)), SumR(OutputsOf(legs, AsReals(amounts))),
                   SumR(OutputsOf(legs, mine)), |legs| as real);
  }

  lemma AmountCount(legs: seq<Leg>, total: nat, sqrt: real -> real, amounts: seq<nat>)
    requires ValidLegs(legs) && Rebalanced(legs, total, sqrt, amounts)
    ensures |amounts| == |legs|
  {}

  /** The allocation `solve_allocations` returns falls short of every allocation of the total by at most
      the largest initial marginal per pool, and the final marginal times what bisection left unspent;
      and that rest is less than what the other end of the last bracket hands out on top. */
  lemma ReturnedNearOptimal(legs: seq<Leg>, total: nat, amounts: seq<nat>, others: seq<real>, sqrt: real -> real)
    requires ValidLegs(legs) && legs != [] && total <= U128_MAX && ExactRoot(sqrt)
    requires Rebalanced(legs, total, sqrt, amounts) && Sum(amounts) == total
    requires RespectsCaps(legs, others) && SumR(others) <= total as real
    ensures var bracket := Bisect(legs, total, sqrt, StartMarginal(legs), 80);
      var rest := total as real - SumR(AllocationsAt(legs, bracket.high, sqrt));
      && SumR(OutputsOf(legs, others)) <=
           SumR(OutputsOf(legs, AsReals(amounts))) + StartMarginal(legs) * |legs| as real + bracket.high * rest
      && 0.0 <= rest
      && (bracket.low > 0.0 ==>
            rest < SumR(AllocationsAt(legs, bracket.low, sqrt)) - SumR(AllocationsAt(legs, bracket.high, sqrt)))
  {
    hide Output, AllocationAtMarginal, ExactRoot, Bisect, StartMarginal, Rebalanced, SumR, Sum, AllocationsAt, OutputsOf, AsReals,
         RespectsCaps, ValidLegs;
    BisectKeepsBracket(legs, total, sqrt, 80);
    RebalanceLoss(legs, total, sqrt, amounts);
    FinalAllocationNearOptimal(legs, total, others, sqrt);
    LeftUnspent(legs, total, sqrt, Bisect(legs, total, sqrt, StartMarginal(legs), 80));
  }

  lemma LeftUnspent(legs: seq<Leg>, total: nat, sqrt: real -> real, b: Bracket)
    requires ValidLegs(legs) && TrueBracket(legs, total, sqrt, b)
    ensures var rest := total as real - SumR(AllocationsAt(legs, b.high, sqrt));
      0.0 <= rest && (b.low > 0.0 ==>
        rest < SumR(AllocationsAt(legs, b.low, sqrt)) - SumR(AllocationsAt(legs, b.high, sqrt)))
  {
    hide AllocationsAt;
  }

  // ----- an input on which the first sum does overflow

  const EXAMPLE_RESERVE: nat := U128_MAX / 5

  /** A balanced pool with a 60% fee: `0.4R * x / (R + 0.4x)` scaled by a million. */
  function ExampleLeg(): (leg: Leg)
    ensures Some(leg) == LegFromReserves(EXAMPLE_RESERVE, EXAMPLE_RESERVE, 600_000, 0)
    ensures ValidLeg(leg) && leg.capacity.None?
    ensures leg.curve.denominatorConst == EXAMPLE_RESERVE as real * 1000000.0
    ensures leg.curve.numerator == leg.curve.denominatorConst * 0.4
    ensures leg.curve.denominatorSlope == 400000.0
  {
    LegFromReserves(EXAMPLE_RESERVE, EXAMPLE_RESERVE, 600_000, 0).value
  }

  const HALF_TOTAL: real := U128_MAX as real / 2.0

  lemma SlopeInjective(k: Curve, a: real, b: real)
    requires Proper(k) && k.denominatorSlope > 0.0 && a >= 0.0 && b >= 0.0 && Slope(k, a) == Slope(k, b)
    ensures a == b
  {
    hide Slope;
    SlopeTimes(k, a);
    SlopeTimes(k, b);
    SquareInjective(Denominator(k, a), Denominator(k, b), Slope(k, a));
    ProductSign(a - b, k.denominatorSlope);
    assert Denominator(k, a) - Denominator(k, b) == (a - b) * k.denominatorSlope;
  }

  lemma SquareInjective(x: real, y: real, g: real)
    requires x > 0.0 && y > 0.0 && g > 0.0 && g * (x * x) == g * (y * y)
    ensures x == y
  {
    ProductSign(x * x - y * y, g);
    assert (x - y) * (x + y) == x * x - y * y;
    ProductSign(x - y, x + y);
  }

  /** The two marginals that matter, in closed form. */
  lemma ExampleSlopes()
    ensures Slope(ExampleLeg().curve, 0.0) == 0.4
    ensures HALF_TOTAL > 0.0 && Slope(ExampleLeg().curve, HALF_TOTAL) == 0.1
  {
    var k := ExampleLeg().curve;
    var c := k.denominatorConst;
    SlopeTimes(k, 0.0);
    var cc := PositiveProduct(c, c);
    assert k.numerator * c == 0.4 * cc;
    SameQuotient(Slope(k, 0.0), 0.4, cc);
    assert EXAMPLE_RESERVE * 5 == U128_MAX;
    assert Denominator(k, HALF_TOTAL) == 2.0 * c;
    SlopeTimes(k, HALF_TOTAL);
    assert (2.0 * c) * (2.0 * c) == 4.0 * cc;
    SameQuotient(Slope(k, HALF_TOTAL), 0.1, 4.0 * cc);
  }

  /** The pool takes half the total at marginal 0.1, more below it and less above it. */
  lemma ExampleAllocation(marginal: real, sqrt: real -> real)
    requires ExactRoot(sqrt) && 0.0 < marginal < 0.4
    ensures var a := AllocationAtMarginal(ExampleLeg(), marginal, sqrt);
      && (marginal == 0.1 ==> a == HALF_TOTAL)
      && (marginal < 0.1 ==> a > HALF_TOTAL)
      && (marginal > 0.1 ==> a < HALF_TOTAL)
  {
    hide Slope, ExactRoot, PointAt;
    var k := ExampleLeg().curve;
    ExampleSlopes();
    PointHasSlope(k, marginal, sqrt);
    var a := PointAt(k, marginal, sqrt);
    if marginal == 0.1 {
      SlopeInjective(k, a, HALF_TOTAL);
    } else if a <= HALF_TOTAL {
      SlopeAntitone(k, a, HALF_TOTAL);
    } else {
      SlopeAntitone(k, HALF_TOTAL, a);
    }
  }

  function ExampleLegs(): (legs: seq<Leg>)
    ensures ValidLegs(legs) && |legs| == 2
  {
    [ExampleLeg(), ExampleLeg()]
  }

  lemma ExampleOverfills(marginal: real, sqrt: real -> real)
    requires ExactRoot(sqrt) && 0.0 < marginal < 0.4
    ensures Overfills(ExampleLegs(), U128_MAX, marginal, sqrt) <==> marginal < 0.1
  {
    hide AllocationAtMarginal;
    ExampleAllocation(marginal, sqrt);
    var xs, a := AllocationsAt(ExampleLegs(), marginal, sqrt), AllocationAtMarginal(ExampleLeg(), marginal, sqrt);
    assert xs == [a, a];
    PairSums(a, 0);
  }

  lemma PairSums(a: real, n: nat)
    ensures SumR([a, a]) == a + a
    ensures Sum([n, n]) == n + n
  {
    var xs, ns := [a, a], [n, n];
    assert xs[..1] == [a] && ns[..1] == [n];
    assert SumR(xs) == SumR([a]) + a && Sum(ns) == Sum([n]) + n;
    assert [a][..0] == [] && [n][..0] == [];
    assert SumR([a]) == SumR([]) + a && Sum([n]) == Sum([]) + n;
  }

  lemma {:induction false} ExampleBisection(sqrt: real -> real, n: nat)
    requires ExactRoot(sqrt) && n >= 2
    ensures var b := Bisect(ExampleLegs(), U128_MAX, sqrt, 0.4, n);
      b.high == 0.1 && 0.0 <= b.low < 0.1
  {
    hide Overfills;
    var legs := ExampleLegs();
    if n == 2 {
      ExampleOverfills(0.2, sqrt);
      ExampleOverfills(0.1, sqrt);
      assert Bisect(legs, U128_MAX, sqrt, 0.4, 0) == Bracket(0.0, 0.4);
      assert Bisect(legs, U128_MAX, sqrt, 0.4, 1) == Bracket(0.0, 0.2);
    } else {
      ExampleBisection(sqrt, n - 1);
      var b := Bisect(legs, U128_MAX, sqrt, 0.4, n - 1);
      ExampleOverfills((b.low + b.high) / 2.0, sqrt);
    }
  }

  /** Splitting `2^128 - 1` over two such pools: each half rounds up and the first sum
      no longer fits 128 bits, although the uncapped pools can hold the total. */
  lemma OverflowExample(sqrt: real -> real)
    requires ExactRoot(sqrt)
    ensures Feasible(ExampleLegs(), U128_MAX)
    ensures RoundingOverflows(ExampleLegs(), U128_MAX, sqrt)
  {
    hide AllocationAtMarginal, Bisect, Slope;
    var legs := ExampleLegs();
    assert legs[0].capacity.None?;
    ExampleSlopes();
    assert MarginalAt(legs[0], 0.0) == 0.4;
    assert legs[..1] == [ExampleLeg()] && legs[..1][..0] == [];
    assert StartMarginal(legs) == 0.4;
    ExampleBisection(sqrt, 80);
    assert FinalMarginal(legs, U128_MAX, sqrt) == 0.1;
    ExampleAllocation(0.1, sqrt);
    var units := RoundedAt(legs, 0.1, sqrt);
    var half := (U128_MAX + 1) / 2;
    assert HALF_TOTAL + 0.5 == half as real;
    assert RoundedUnits(ExampleLeg(), HALF_TOTAL) == half;
    assert units == [half, half];
    PairSums(0.0, half);
  }
}
