/** Splitting one hop over parallel pools (`src/router/split_optimizer.rs`).

    A pool quote is an arbitrary function of the pool and the amount; `None` is
    a quote that failed. An edge reference that does not resolve is `None`. */
module SplitOptimizer {
  import opened Common
  import opened Sorting
  import V2Split

  /** `capacity` is `safe_capacity_in`; zero means "no cap". `minBps` is the share of the expected output
      a split insists on: the configured one, or zero for a bin-based pool. */
  datatype PoolEdge = PoolEdge(poolId: nat, capacity: nat, minBps: nat)

  type Edges = seq<Option<PoolEdge>>
  type Quoter = (nat, nat) -> Option<nat>

  datatype Job = Job(idx: nat, marginal: nat, total: nat)
  datatype Ranking = QuoteFailed | NoJob | Winner(job: Job)

  datatype Allocation = Allocation(amounts: seq<nat>, quoted: seq<nat>, spent: nat)

  // ----- which pools may take the next slice

  predicate Fits(edge: Option<PoolEdge>, amount: nat) {
    edge.Some? && (edge.value.capacity > 0 ==> amount <= edge.value.capacity)
  }

  predicate IsJob(edges: Edges, amounts: seq<nat>, active: nat, maxParallel: nat, slice: nat, i: nat)
    requires |amounts| == |edges|
  {
    && i < |edges|
    && !(amounts[i] == 0 && active >= maxParallel)
    && Fits(edges[i], SatAdd(amounts[i], slice))
  }

  /** The number of pools that hold part of the input. */
  function ActiveCount(amounts: seq<nat>): nat {
    if amounts == [] then 0
    else ActiveCount(amounts[..|amounts| - 1]) + (if amounts[|amounts| - 1] > 0 then 1 else 0)
  }

  lemma {:induction false} ActiveCountUpdate(amounts: seq<nat>, i: nat, x: nat)
    requires i < |amounts| && x > 0
    ensures ActiveCount(amounts[i := x]) == ActiveCount(amounts) + (if amounts[i] == 0 then 1 else 0)
  {
    var init := amounts[..|amounts| - 1];
    if i == |amounts| - 1 {
      assert amounts[i := x][..|amounts| - 1] == init;
    } else {
      ActiveCountUpdate(init, i, x);
      assert amounts[i := x][..|amounts| - 1] == init[i := x];
    }
  }

  lemma {:induction false} ActiveCountBound(amounts: seq<nat>, i: nat)
    requires i < |amounts| && amounts[i] == 0
    ensures ActiveCount(amounts) < |amounts|
    decreases |amounts|
  {
    var init := amounts[..|amounts| - 1];
    ActiveCountAtMost(init);
    if i < |amounts| - 1 {
      ActiveCountBound(init, i);
    }
  }

  lemma {:induction false} ActiveCountAtMost(amounts: seq<nat>)
    ensures ActiveCount(amounts) <= |amounts|
    ensures ActiveCount(amounts) <= Sum(amounts)
  {
    if amounts != [] {
      ActiveCountAtMost(amounts[..|amounts| - 1]);
    }
  }

  lemma {:induction false} ActiveCountZeros(amounts: seq<nat>)
    requires forall i :: 0 <= i < |amounts| ==> amounts[i] == 0
    ensures ActiveCount(amounts) == 0
  {
    if amounts != [] {
      ActiveCountZeros(amounts[..|amounts| - 1]);
    }
  }

  lemma {:induction false} LargestExists(ranked: seq<Job>)
    requires ranked != []
    ensures exists w :: w in ranked && forall x :: x in ranked ==> x.marginal <= w.marginal
  {
    if |ranked| == 1 {
      assert ranked[0] in ranked;
    } else {
      var init := ranked[..|ranked| - 1];
      LargestExists(init);
      var w :| w in init && forall x :: x in init ==> x.marginal <= w.marginal;
      var last := ranked[|ranked| - 1];
      assert forall x :: x in ranked ==> x in init || x == last;
      if w.marginal >= last.marginal {
        assert w in ranked;
      } else {
        assert last in ranked;
      }
    }
  }

  /** `job` was quoted for an admissible slice and no admissible slice ranks above it. */
  ghost predicate BestJob(edges: Edges, quote: Quoter, amounts: seq<nat>, quoted: seq<nat>,
                          active: nat, maxParallel: nat, slice: nat, job: Job)
    requires |amounts| == |quoted| == |edges|
  {
    && IsJob(edges, amounts, active, maxParallel, slice, job.idx)
    && quote(job.idx, SatAdd(amounts[job.idx], slice)) == Some(job.total)
    && job.marginal == SatSub(job.total, quoted[job.idx])
    && NoneAbove(edges, quote, amounts, quoted, active, maxParallel, slice, job.marginal)
  }

  /** Every admissible slice was quoted, and adds at most `bound`. */
  ghost predicate NoneAbove(edges: Edges, quote: Quoter, amounts: seq<nat>, quoted: seq<nat>,
                            active: nat, maxParallel: nat, slice: nat, bound: nat)
    requires |amounts| == |quoted| == |edges|
  {
    forall i: nat :: IsJob(edges, amounts, active, maxParallel, slice, i) ==>
      && quote(i, SatAdd(amounts[i], slice)).Some?
      && SatSub(quote(i, SatAdd(amounts[i], slice)).value, quoted[i]) <= bound
  }

  /** One round of quotes. Quotes arrive in any order and the stable sort keeps
      that order among equals, so any job with the largest marginal can win. */
  method RankJobs(edges: Edges, quote: Quoter, amounts: seq<nat>, quoted: seq<nat>,
                  active: nat, maxParallel: nat, slice: nat)
    returns (r: Ranking)
    requires |amounts| == |quoted| == |edges|
    ensures r.QuoteFailed? ==>
      exists i: nat :: i < |edges| && IsJob(edges, amounts, active, maxParallel, slice, i)
                       && quote(i, SatAdd(amounts[i], slice)).None?
    ensures r.NoJob? ==> NoneAbove(edges, quote, amounts, quoted, active, maxParallel, slice, 0)
    ensures r.Winner? ==> r.job.idx < |edges|
    ensures r.Winner? ==> NoneAbove(edges, quote, amounts, quoted, active, maxParallel, slice, r.job.marginal)
    ensures r.Winner? ==> BestJob(edges, quote, amounts, quoted, active, maxParallel, slice, r.job)
  {
    var ranked: seq<Job> := [];
    var i := 0;
    while i < |edges|
      invariant 0 <= i <= |edges|
      invariant forall x :: x in ranked ==>
        && x.idx < i
        && IsJob(edges, amounts, active, maxParallel, slice, x.idx)
        && quote(x.idx, SatAdd(amounts[x.idx], slice)) == Some(x.total)
        && x.marginal == SatSub(x.total, quoted[x.idx])
      invariant forall k: nat :: k < i && IsJob(edges, amounts, active, maxParallel, slice, k) ==>
        && quote(k, SatAdd(amounts[k], slice)).Some?
        && var total := quote(k, SatAdd(amounts[k], slice)).value;
           Job(k, SatSub(total, quoted[k]), total) in ranked
    {
      if IsJob(edges, amounts, active, maxParallel, slice, i) {
        match quote(i, SatAdd(amounts[i], slice)) {
          case None => return QuoteFailed;
          case Some(total) =>
            ranked := ranked + [Job(i, SatSub(total, quoted[i]), total)];
        }
      }
      i := i + 1;
    }
    if ranked == [] {
      return NoJob;
    }
    LargestExists(ranked);
    var w :| w in ranked && forall x :: x in ranked ==> x.marginal <= w.marginal;
    return Winner(w);
  }

  // ----- the slice grid and what optimality means on it

  /** `n` slices of size `slice`: the product `n * slice`, by repeated addition. */
  function Scale(n: nat, slice: nat): (amount: nat)
    ensures n == 0 ==> amount == 0
    ensures n > 0 ==> amount >= slice
  {
    if n == 0 then 0 else Scale(n - 1, slice) + slice
  }

  lemma {:induction false} ScaleIsProduct(n: nat, slice: nat)
    ensures Scale(n, slice) == n * slice
  {
    if n > 0 {
      ScaleIsProduct(n - 1, slice);
      assert n * slice == (n - 1) * slice + slice;
    }
  }

  lemma {:induction false} ScaleMono(a: nat, b: nat, slice: nat)
    requires a <= b
    ensures Scale(a, slice) <= Scale(b, slice)
    ensures a < b ==> Scale(a, slice) + slice <= Scale(b, slice)
  {
    if a < b {
      ScaleMono(a, b - 1, slice);
    }
  }

  /** The output of pool `i` after `units` slices; an untouched pool yields nothing. */
  function GridOutput(quote: Quoter, slice: nat, i: nat, units: nat): nat {
    if units == 0 then 0
    else match quote(i, Scale(units, slice))
      case None => 0
      case Some(out) => out
  }

  /** The signed gain of one more slice. */
  function Gain(quote: Quoter, slice: nat, i: nat, units: nat): int {
    GridOutput(quote, slice, i, units + 1) - GridOutput(quote, slice, i, units)
  }

  predicate UnitFits(edges: Edges, slice: nat, total: nat, i: nat, units: nat) {
    i < |edges| && Fits(edges[i], Scale(units, slice)) && Scale(units, slice) <= total
  }

  /** Every pool's gain per slice is non-increasing as far as the pool can be filled. */
  ghost predicate DiminishingGains(edges: Edges, quote: Quoter, slice: nat, total: nat) {
    forall i: nat, k: nat :: UnitFits(edges, slice, total, i, k + 2) ==>
      Gain(quote, slice, i, k + 1) <= Gain(quote, slice, i, k)
  }

  /** Another way to spend at most `total` in whole slices within the caps. */
  ghost predicate GridAllocation(edges: Edges, slice: nat, total: nat, units: seq<nat>) {
    && |units| == |edges|
    && Scale(Sum(units), slice) <= total
    && forall i :: 0 <= i < |units| && units[i] > 0 ==> Fits(edges[i], Scale(units[i], slice))
  }

  function GridTotal(quote: Quoter, slice: nat, units: seq<nat>): nat {
    if units == [] then 0
    else GridTotal(quote, slice, units[..|units| - 1])
         + GridOutput(quote, slice, |units| - 1, units[|units| - 1])
  }

  /** A price per slice that separates the slices taken from the slices left. */
  ghost predicate SeparatingPrice(edges: Edges, quote: Quoter, slice: nat, total: nat,
                                  units: seq<nat>, price: int)
  {
    && |units| == |edges|
    && (forall i :: 0 <= i < |units| && UnitFits(edges, slice, total, i, units[i] + 1) ==>
          Gain(quote, slice, i, units[i]) <= price)
    && (forall i :: 0 <= i < |units| && units[i] > 0 ==>
          UnitFits(edges, slice, total, i, units[i]) && Gain(quote, slice, i, units[i] - 1) >= price)
  }

  lemma FitsBelow(edges: Edges, slice: nat, total: nat, i: nat, small: nat, large: nat)
    requires small <= large && UnitFits(edges, slice, total, i, large)
    ensures UnitFits(edges, slice, total, i, small)
  {
    ScaleMono(small, large, slice);
  }

  lemma {:induction false} GainAntitone(edges: Edges, quote: Quoter, slice: nat, total: nat, i: nat, j: nat, k: nat)
    requires DiminishingGains(edges, quote, slice, total)
    requires j <= k && UnitFits(edges, slice, total, i, k + 1)
    ensures Gain(quote, slice, i, k) <= Gain(quote, slice, i, j)
    decreases k - j
  {
    if j < k {
      FitsBelow(edges, slice, total, i, k, k + 1);
      GainAntitone(edges, quote, slice, total, i, j, k - 1);
      assert UnitFits(edges, slice, total, i, (k - 1) + 2);
    }
  }

  /** Moving one pool from `have` to `other` slices gains at most the price per slice moved. */
  lemma {:induction false} PriceBoundsPool(edges: Edges, quote: Quoter, slice: nat, total: nat,
                                           i: nat, have: nat, other: nat, price: int)
    requires DiminishingGains(edges, quote, slice, total)
    requires other > have ==> UnitFits(edges, slice, total, i, other) && Gain(quote, slice, i, have) <= price
    requires other < have ==> UnitFits(edges, slice, total, i, have) && Gain(quote, slice, i, have - 1) >= price
    ensures GridOutput(quote, slice, i, other) - GridOutput(quote, slice, i, have) <= price * (other - have)
    decreases Max(other - have, have - other)
  {
    if other > have {
      FitsBelow(edges, slice, total, i, other - 1, other);
      PriceBoundsPool(edges, quote, slice, total, i, have, other - 1, price);
      GainAntitone(edges, quote, slice, total, i, have, other - 1);
      assert price * (other - have) == price * (other - 1 - have) + price;
    } else if other < have {
      if other + 1 < have {
        PriceBoundsPool(edges, quote, slice, total, i, have, other + 1, price);
      }
      GainAntitone(edges, quote, slice, total, i, other, have - 1);
      assert price * (other - have) == price * (other + 1 - have) - price;
    }
  }

  lemma OtherPoolFits(edges: Edges, slice: nat, total: nat, others: seq<nat>, i: nat)
    requires GridAllocation(edges, slice, total, others)
    requires i < |others| && others[i] > 0
    ensures UnitFits(edges, slice, total, i, others[i])
  {
    SumBound(others, i);
    ScaleMono(others[i], Sum(others), slice);
  }

  lemma Distribute(p: int, a: int, b: int)
    ensures p * (a + b) == p * a + p * b
  {}

  /** Pool `i` gains at most `price` for every slice by which `others` exceeds `units`. */
  ghost predicate PriceBound(quote: Quoter, slice: nat, units: seq<nat>, others: seq<nat>, price: int, i: nat)
    requires i < |units| == |others|
  {
    var more: int, have: int := others[i], units[i];
    GridOutput(quote, slice, i, others[i]) - GridOutput(quote, slice, i, units[i]) <= price * (more - have)
  }

  lemma PriceBoundsStep(edges: Edges, quote: Quoter, slice: nat, total: nat,
                        units: seq<nat>, others: seq<nat>, price: int, i: nat)
    requires DiminishingGains(edges, quote, slice, total)
    requires SeparatingPrice(edges, quote, slice, total, units, price)
    requires GridAllocation(edges, slice, total, others)
    requires i < |units|
    ensures PriceBound(quote, slice, units, others, price, i)
  {
    if others[i] > units[i] {
      OtherPoolFits(edges, slice, total, others, i);
      FitsBelow(edges, slice, total, i, units[i] + 1, others[i]);
    }
    PriceBoundsPool(edges, quote, slice, total, i, units[i], others[i], price);
  }

  lemma {:induction false} PriceBoundsTotal(quote: Quoter, slice: nat, units: seq<nat>, others: seq<nat>,
                                            price: int, n: nat)
    requires n <= |units| == |others|
    requires forall i :: 0 <= i < |units| ==> PriceBound(quote, slice, units, others, price, i)
    ensures GridTotal(quote, slice, others[..n]) - GridTotal(quote, slice, units[..n])
         <= price * (Sum(others[..n]) - Sum(units[..n]))
  {
    if n > 0 {
      var i := n - 1;
      PriceBoundsTotal(quote, slice, units, others, price, i);
      assert PriceBound(quote, slice, units, others, price, i);
      GridTotalSplit(quote, slice, units, i);
      GridTotalSplit(quote, slice, others, i);
      var more: int, have: int := others[i], units[i];
      Distribute(price, Sum(others[..i]) - Sum(units[..i]), more - have);
    }
  }

  lemma GridTotalSplit(quote: Quoter, slice: nat, units: seq<nat>, i: nat)
    requires i < |units|
    ensures GridTotal(quote, slice, units[..i + 1])
         == GridTotal(quote, slice, units[..i]) + GridOutput(quote, slice, i, units[i])
    ensures Sum(units[..i + 1]) == Sum(units[..i]) + units[i]
  {
    assert units[..i + 1][..i] == units[..i];
  }

  lemma NonPositiveProduct(p: int, d: int)
    requires p == 0 || (p > 0 && d <= 0)
    ensures p * d <= 0
  {}

  /** A separating price makes an allocation optimal when everything is spent or
      the price is zero. */
  lemma SeparatedIsOptimal(edges: Edges, quote: Quoter, slice: nat, total: nat,
                           units: seq<nat>, others: seq<nat>, price: int)
    requires DiminishingGains(edges, quote, slice, total)
    requires SeparatingPrice(edges, quote, slice, total, units, price)
    requires GridAllocation(edges, slice, total, others)
    requires price == 0 || (price > 0 && slice > 0 && Scale(Sum(units), slice) == total)
    ensures GridTotal(quote, slice, others) <= GridTotal(quote, slice, units)
  {
    hide DiminishingGains, Gain, GridOutput, PriceBound, Fits;
    forall i | 0 <= i < |units| ensures PriceBound(quote, slice, units, others, price, i) {
      PriceBoundsStep(edges, quote, slice, total, units, others, price, i);
    }
    PriceBoundsTotal(quote, slice, units, others, price, |units|);
    assert units[..|units|] == units && others[..|others|] == others;
    if price > 0 && Sum(others) > Sum(units) {
      ScaleMono(Sum(units), Sum(others), slice);
      assert false;
    }
    NonPositiveProduct(price, Sum(others) - Sum(units));
  }

  // ----- the greedy loop

  /** What holds of the bookkeeping whatever the pools quote. */
  ghost predicate WellSplit(edges: Edges, quote: Quoter, totalIn: nat, maxParallel: nat, a: Allocation) {
    && |a.amounts| == |a.quoted| == |edges|
    && Sum(a.amounts) == a.spent <= totalIn
    && ActiveCount(a.amounts) <= maxParallel
    && forall i :: 0 <= i < |edges| ==>
         if a.amounts[i] == 0 then a.quoted[i] == 0
         else && quote(i, a.amounts[i]) == Some(a.quoted[i])
              && a.quoted[i] > 0
              && Fits(edges[i], a.amounts[i])
  }

  /** The loop has nothing left to do: all is spent, or no admissible slice adds output. */
  ghost predicate Exhausted(edges: Edges, quote: Quoter, totalIn: nat, maxParallel: nat, slice: nat, a: Allocation)
    requires WellSplit(edges, quote, totalIn, maxParallel, a)
  {
    a.spent < totalIn ==>
      NoneAbove(edges, quote, a.amounts, a.quoted, ActiveCount(a.amounts), maxParallel,
                Min(totalIn - a.spent, slice), 0)
  }

  function SliceSize(totalIn: nat): (slice: nat)
    ensures slice > 0
  {
    Max(totalIn / 8, 1)
  }

  /** The input is cut into at least eight slices, or into units, and never into more than fifteen. */
  lemma SliceCount(totalIn: nat)
    ensures if totalIn >= 8 then 8 <= totalIn / SliceSize(totalIn) <= 15 else SliceSize(totalIn) == 1
  {
    if totalIn >= 8 {
      var slice := SliceSize(totalIn);
      assert 8 * slice <= totalIn < 8 * slice + 8 <= 16 * slice;
      DivBounds(totalIn, slice);
      QuotientMono(8, totalIn / slice, 8 * slice, totalIn, slice);
      QuotientMono(totalIn / slice, 15, totalIn / slice * slice, totalIn, slice);
    }
  }

  /** All slices are equal. */
  ghost predicate EqualSlices(totalIn: nat) {
    exists slices: nat :: totalIn == Scale(slices, SliceSize(totalIn))
  }

  /** The same condition in the arithmetic a caller would use. */
  lemma EqualSlicesIsDivisibility(totalIn: nat)
    ensures EqualSlices(totalIn) <==> totalIn % SliceSize(totalIn) == 0
    ensures forall slices: nat :: totalIn == Scale(slices, SliceSize(totalIn)) ==> slices == totalIn / SliceSize(totalIn)
  {
    var slice := SliceSize(totalIn);
    ScaleIsProduct(totalIn / slice, slice);
    forall slices: nat | totalIn == Scale(slices, slice)
      ensures slices == totalIn / slice && totalIn % slice == 0
    {
      ScaleIsProduct(slices, slice);
      QuotientOfMultiple(slices, slice);
    }
  }

  /** There is room for every pool, or for a pool per slice. */
  predicate RoomForAll(edges: Edges, totalIn: nat, maxParallel: nat) {
    |edges| <= maxParallel || totalIn / SliceSize(totalIn) <= maxParallel
  }

  /** The limit on parallel pools keeps no pool out: there is room for all, or fewer pools are in use,
      or no unused pool could take a slice. */
  ghost predicate LimitIsFree(edges: Edges, totalIn: nat, maxParallel: nat, amounts: seq<nat>)
    requires |amounts| == |edges|
  {
    || RoomForAll(edges, totalIn, maxParallel)
    || ActiveCount(amounts) < maxParallel
    || forall i :: 0 <= i < |edges| && amounts[i] == 0 ==> !Fits(edges[i], SliceSize(totalIn))
  }

  lemma QuotientOfMultiple(n: int, d: int)
    requires d > 0
    ensures (n * d) / d == n && (n * d) % d == 0
  {
    var p := n * d;
    var q, r := p / d, p % d;
    assert p == q * d + r;
    assert (n - q) * d == r;
    MultipleBounds(n - q, d);
  }

  lemma MultipleBounds(g: int, d: int)
    requires d > 0
    ensures g > 0 ==> g * d >= d
    ensures g < 0 ==> g * d < 0
  {}

  ghost predicate OnGrid(a: Allocation, slice: nat, units: seq<nat>) {
    && |units| == |a.amounts|
    && Scale(Sum(units), slice) == a.spent
    && forall i :: 0 <= i < |units| ==> a.amounts[i] == Scale(units[i], slice)
  }

  /** Above the gain of any first slice, and positive. */
  function OpeningPrice(quote: Quoter, slice: nat, n: nat): (price: nat)
    ensures price > 0
    ensures forall i :: 0 <= i < n ==> Gain(quote, slice, i, 0) <= price
  {
    if n == 0 then 1 else Max(OpeningPrice(quote, slice, n - 1), GridOutput(quote, slice, n - 1, 1))
  }

  lemma {:induction false} GridActive(amounts: seq<nat>, slice: nat, units: seq<nat>)
    requires slice > 0 && |amounts| == |units|
    requires forall i :: 0 <= i < |units| ==> amounts[i] == Scale(units[i], slice)
    ensures ActiveCount(amounts) <= Sum(units)
  {
    if amounts != [] {
      var n := |amounts| - 1;
      GridActive(amounts[..n], slice, units[..n]);
      assert amounts[n] > 0 ==> units[n] > 0;
    }
  }

  /** A pool that can take one more slice is never kept out by the pool limit. */
  lemma LimitDoesNotBind(edges: Edges, slice: nat, slices: nat, maxParallel: nat, a: Allocation, units: seq<nat>, i: nat)
    requires slice > 0 && |a.amounts| == |edges| && OnGrid(a, slice, units)
    requires Sum(units) < slices && (|edges| <= maxParallel || slices <= maxParallel)
    requires i < |edges| && a.amounts[i] == 0
    ensures ActiveCount(a.amounts) < maxParallel
  {
    if |edges| <= maxParallel {
      ActiveCountBound(a.amounts, i);
    } else {
      GridActive(a.amounts, slice, units);
    }
  }

  /** Giving the next slice to a pool with the largest gain moves the price down to that gain. */
  lemma TakeSlice(edges: Edges, quote: Quoter, slice: nat, total: nat, units: seq<nat>, price: int, w: nat)
    requires DiminishingGains(edges, quote, slice, total)
    requires SeparatingPrice(edges, quote, slice, total, units, price)
    requires w < |units| && UnitFits(edges, slice, total, w, units[w] + 1)
    requires forall i :: 0 <= i < |units| && UnitFits(edges, slice, total, i, units[i] + 1) ==>
      Gain(quote, slice, i, units[i]) <= Gain(quote, slice, w, units[w])
    ensures SeparatingPrice(edges, quote, slice, total, units[w := units[w] + 1], Gain(quote, slice, w, units[w]))
  {
    if UnitFits(edges, slice, total, w, units[w] + 2) {
      assert Gain(quote, slice, w, units[w] + 1) <= Gain(quote, slice, w, units[w]);
    }
  }

  /** A whole slice on the grid: a job is exactly a pool with a unit to spare, and its
      ranked marginal is the gain cut off at zero. */
  lemma JobOnGrid(edges: Edges, quote: Quoter, totalIn: nat, maxParallel: nat, a: Allocation, units: seq<nat>, i: nat)
    requires totalIn <= U128_MAX
    requires WellSplit(edges, quote, totalIn, maxParallel, a) && a.spent < totalIn
    requires EqualSlices(totalIn) && LimitIsFree(edges, totalIn, maxParallel, a.amounts)
    requires OnGrid(a, SliceSize(totalIn), units)
    requires i < |edges|
    ensures Min(totalIn - a.spent, SliceSize(totalIn)) == SliceSize(totalIn)
    ensures IsJob(edges, a.amounts, ActiveCount(a.amounts), maxParallel, SliceSize(totalIn), i)
        <==> UnitFits(edges, SliceSize(totalIn), totalIn, i, units[i] + 1)
    ensures SatAdd(a.amounts[i], SliceSize(totalIn)) == Scale(units[i] + 1, SliceSize(totalIn))
    ensures GridOutput(quote, SliceSize(totalIn), i, units[i]) == a.quoted[i]
  {
    var slice := SliceSize(totalIn);
    var slices: nat :| totalIn == Scale(slices, slice);
    EqualSlicesIsDivisibility(totalIn);
    if Sum(units) >= slices {
      ScaleMono(slices, Sum(units), slice);
      assert false;
    }
    ScaleMono(Sum(units), slices, slice);
    SumBound(a.amounts, i);
    if a.amounts[i] == 0 && RoomForAll(edges, totalIn, maxParallel) {
      LimitDoesNotBind(edges, slice, slices, maxParallel, a, units, i);
    }
    assert Scale(1, slice) == slice;
    assert a.amounts[i] == 0 ==> units[i] == 0;
  }

  /** The greedy allocation is at least as good as every other one on the same grid. */
  ghost predicate GreedyOptimal(edges: Edges, quote: Quoter, totalIn: nat, a: Allocation)
  {
    forall others: seq<nat> :: GridAllocation(edges, SliceSize(totalIn), totalIn, others) ==>
      GridTotal(quote, SliceSize(totalIn), others) <= Sum(a.quoted)
  }

  lemma {:induction false} QuotedIsGridTotal(quote: Quoter, slice: nat, units: seq<nat>, quoted: seq<nat>)
    requires |units| == |quoted|
    requires forall i :: 0 <= i < |units| ==> GridOutput(quote, slice, i, units[i]) == quoted[i]
    ensures GridTotal(quote, slice, units) == Sum(quoted)
  {
    if units != [] {
      var n := |units| - 1;
      QuotedIsGridTotal(quote, slice, units[..n], quoted[..n]);
    }
  }

  /** What the loop carries when slices are uniform and gains diminish. */
  ghost predicate Priced(edges: Edges, quote: Quoter, totalIn: nat, a: Allocation, units: seq<nat>, price: int) {
    && OnGrid(a, SliceSize(totalIn), units)
    && price > 0
    && SeparatingPrice(edges, quote, SliceSize(totalIn), totalIn, units, price)
  }

  lemma PricedStart(edges: Edges, quote: Quoter, totalIn: nat, a: Allocation, units: seq<nat>)
    requires |a.amounts| == |units| == |edges| && a.spent == 0
    requires forall i :: 0 <= i < |units| ==> units[i] == 0 && a.amounts[i] == 0
    ensures Priced(edges, quote, totalIn, a, units, OpeningPrice(quote, SliceSize(totalIn), |edges|))
  {
    SumOfZeros(units);
  }

  function Take(a: Allocation, job: Job, slice: nat): Allocation
    requires job.idx < |a.amounts| == |a.quoted|
  {
    Allocation(a.amounts[job.idx := SatAdd(a.amounts[job.idx], slice)], a.quoted[job.idx := job.total],
               a.spent + slice)
  }

  lemma WellSplitStep(edges: Edges, quote: Quoter, totalIn: nat, maxParallel: nat, a: Allocation, job: Job)
    requires totalIn <= U128_MAX
    requires WellSplit(edges, quote, totalIn, maxParallel, a) && a.spent < totalIn
    requires BestJob(edges, quote, a.amounts, a.quoted, ActiveCount(a.amounts), maxParallel,
                     Min(totalIn - a.spent, SliceSize(totalIn)), job)
    requires job.marginal > 0
    ensures var slice := Min(totalIn - a.spent, SliceSize(totalIn));
      && WellSplit(edges, quote, totalIn, maxParallel, Take(a, job, slice))
      && Take(a, job, slice).amounts == a.amounts[job.idx := a.amounts[job.idx] + slice]
      && ActiveCount(Take(a, job, slice).amounts) == ActiveCount(a.amounts) + (if a.amounts[job.idx] == 0 then 1 else 0)
  {
    var slice := Min(totalIn - a.spent, SliceSize(totalIn));
    SumBound(a.amounts, job.idx);
    SumUpdate(a.amounts, job.idx, a.amounts[job.idx] + slice);
    ActiveCountUpdate(a.amounts, job.idx, a.amounts[job.idx] + slice);
  }

  lemma RankedGains(edges: Edges, quote: Quoter, totalIn: nat, maxParallel: nat, a: Allocation,
                    units: seq<nat>, job: Job)
    requires totalIn <= U128_MAX
    requires WellSplit(edges, quote, totalIn, maxParallel, a) && a.spent < totalIn
    requires EqualSlices(totalIn) && LimitIsFree(edges, totalIn, maxParallel, a.amounts)
    requires OnGrid(a, SliceSize(totalIn), units)
    requires BestJob(edges, quote, a.amounts, a.quoted, ActiveCount(a.amounts), maxParallel, SliceSize(totalIn), job)
    requires job.marginal > 0
    ensures UnitFits(edges, SliceSize(totalIn), totalIn, job.idx, units[job.idx] + 1)
    ensures Gain(quote, SliceSize(totalIn), job.idx, units[job.idx]) == job.marginal
    ensures forall i :: 0 <= i < |units| && UnitFits(edges, SliceSize(totalIn), totalIn, i, units[i] + 1) ==>
      Gain(quote, SliceSize(totalIn), i, units[i]) <= job.marginal
  {
    var slice := SliceSize(totalIn);
    JobOnGrid(edges, quote, totalIn, maxParallel, a, units, job.idx);
    forall i | 0 <= i < |units| && UnitFits(edges, slice, totalIn, i, units[i] + 1)
      ensures Gain(quote, slice, i, units[i]) <= job.marginal
    {
      JobOnGrid(edges, quote, totalIn, maxParallel, a, units, i);
    }
  }

  lemma OnGridStep(a: Allocation, slice: nat, units: seq<nat>, job: Job)
    requires job.idx < |a.amounts| == |a.quoted|
    requires OnGrid(a, slice, units) && a.amounts[job.idx] + slice <= U128_MAX
    ensures OnGrid(Take(a, job, slice), slice, units[job.idx := units[job.idx] + 1])
  {
    var w := job.idx;
    SumUpdate(units, w, units[w] + 1);
  }

  lemma PricedStep(edges: Edges, quote: Quoter, totalIn: nat, maxParallel: nat, a: Allocation,
                   units: seq<nat>, price: int, job: Job)
    returns (units': seq<nat>, price': int)
    requires totalIn <= U128_MAX
    requires WellSplit(edges, quote, totalIn, maxParallel, a) && a.spent < totalIn
    requires EqualSlices(totalIn) && LimitIsFree(edges, totalIn, maxParallel, a.amounts)
    requires DiminishingGains(edges, quote, SliceSize(totalIn), totalIn)
    requires Priced(edges, quote, totalIn, a, units, price)
    requires BestJob(edges, quote, a.amounts, a.quoted, ActiveCount(a.amounts), maxParallel,
                     Min(totalIn - a.spent, SliceSize(totalIn)), job)
    requires job.marginal > 0
    ensures Priced(edges, quote, totalIn, Take(a, job, Min(totalIn - a.spent, SliceSize(totalIn))), units', price')
  {
    hide EqualSlices, LimitIsFree, DiminishingGains, NoneAbove, SeparatingPrice, Gain, GridOutput, Scale;
    JobOnGrid(edges, quote, totalIn, maxParallel, a, units, job.idx);
    RankedGains(edges, quote, totalIn, maxParallel, a, units, job);
    TakeSlice(edges, quote, SliceSize(totalIn), totalIn, units, price, job.idx);
    SumBound(a.amounts, job.idx);
    OnGridStep(a, SliceSize(totalIn), units, job);
    units', price' := units[job.idx := units[job.idx] + 1], job.marginal;
  }

  lemma PricedEnd(edges: Edges, quote: Quoter, totalIn: nat, maxParallel: nat, a: Allocation,
                  units: seq<nat>, price: int)
    requires totalIn <= U128_MAX
    requires WellSplit(edges, quote, totalIn, maxParallel, a)
    requires EqualSlices(totalIn) && LimitIsFree(edges, totalIn, maxParallel, a.amounts)
    requires DiminishingGains(edges, quote, SliceSize(totalIn), totalIn)
    requires Priced(edges, quote, totalIn, a, units, price)
    requires Exhausted(edges, quote, totalIn, maxParallel, SliceSize(totalIn), a)
    ensures GreedyOptimal(edges, quote, totalIn, a)
  {
    var slice := SliceSize(totalIn);
    var price' := if a.spent == totalIn then price else 0;
    forall i | 0 <= i < |units|
      ensures GridOutput(quote, slice, i, units[i]) == a.quoted[i]
      ensures a.spent < totalIn && UnitFits(edges, slice, totalIn, i, units[i] + 1) ==>
        Gain(quote, slice, i, units[i]) <= 0
    {
      if a.spent < totalIn {
        JobOnGrid(edges, quote, totalIn, maxParallel, a, units, i);
      }
    }
    QuotedIsGridTotal(quote, slice, units, a.quoted);
    assert SeparatingPrice(edges, quote, slice, totalIn, units, price');
    forall others: seq<nat> | GridAllocation(edges, slice, totalIn, others)
      ensures GridTotal(quote, slice, others) <= Sum(a.quoted)
    {
      SeparatedIsOptimal(edges, quote, slice, totalIn, units, others, price');
    }
  }

  /** Equal slices and diminishing gains. */
  ghost predicate Smooth(edges: Edges, quote: Quoter, totalIn: nat) {
    EqualSlices(totalIn) && DiminishingGains(edges, quote, SliceSize(totalIn), totalIn)
  }

  ghost predicate LoopInvariant(edges: Edges, quote: Quoter, totalIn: nat, maxParallel: nat, a: Allocation,
                                units: seq<nat>, price: int)
  {
    && WellSplit(edges, quote, totalIn, maxParallel, a)
    && (Smooth(edges, quote, totalIn) && LimitIsFree(edges, totalIn, maxParallel, a.amounts) ==>
          Priced(edges, quote, totalIn, a, units, price))
  }

  /** What keeps no pool out now kept none out before the last slice. */
  lemma LimitWasFree(edges: Edges, totalIn: nat, maxParallel: nat, amounts: seq<nat>, w: nat, more: nat)
    requires |amounts| == |edges| && w < |edges| && more > 0
    requires amounts[w] == 0 ==> ActiveCount(amounts) < maxParallel
    requires LimitIsFree(edges, totalIn, maxParallel, amounts[w := more])
    ensures LimitIsFree(edges, totalIn, maxParallel, amounts)
  {
    hide RoomForAll, Fits;
    ActiveCountUpdate(amounts, w, more);
    if amounts[w] > 0 && !RoomForAll(edges, totalIn, maxParallel) && ActiveCount(amounts) >= maxParallel {
      forall i | 0 <= i < |edges| && amounts[i] == 0 ensures !Fits(edges[i], SliceSize(totalIn)) {
        assert amounts[w := more][i] == 0;
      }
    }
  }

  lemma LoopStart(edges: Edges, quote: Quoter, totalIn: nat, maxParallel: nat, a: Allocation)
    returns (units: seq<nat>, price: int)
    requires |a.amounts| == |a.quoted| == |edges| && a.spent == 0
    requires forall i :: 0 <= i < |edges| ==> a.amounts[i] == 0 && a.quoted[i] == 0
    ensures LoopInvariant(edges, quote, totalIn, maxParallel, a, units, price)
    ensures ActiveCount(a.amounts) == 0
  {
    SumOfZeros(a.amounts);
    ActiveCountZeros(a.amounts);
    units, price := seq(|edges|, _ => 0), OpeningPrice(quote, SliceSize(totalIn), |edges|);
    PricedStart(edges, quote, totalIn, a, units);
  }

  lemma LoopStep(edges: Edges, quote: Quoter, totalIn: nat, maxParallel: nat, a: Allocation,
                 units: seq<nat>, price: int, job: Job)
    returns (units': seq<nat>, price': int)
    requires totalIn <= U128_MAX
    requires LoopInvariant(edges, quote, totalIn, maxParallel, a, units, price) && a.spent < totalIn
    requires BestJob(edges, quote, a.amounts, a.quoted, ActiveCount(a.amounts), maxParallel,
                     Min(totalIn - a.spent, SliceSize(totalIn)), job)
    requires job.marginal > 0
    ensures var taken := Take(a, job, Min(totalIn - a.spent, SliceSize(totalIn)));
      && LoopInvariant(edges, quote, totalIn, maxParallel, taken, units', price')
      && ActiveCount(taken.amounts) == ActiveCount(a.amounts) + (if a.amounts[job.idx] == 0 then 1 else 0)
  {
    WellSplitStep(edges, quote, totalIn, maxParallel, a, job);
    units', price' := units, price;
    var slice := Min(totalIn - a.spent, SliceSize(totalIn));
    if Smooth(edges, quote, totalIn) && LimitIsFree(edges, totalIn, maxParallel, Take(a, job, slice).amounts) {
      hide LimitIsFree, Priced, EqualSlices, DiminishingGains, NoneAbove;
      LimitWasFree(edges, totalIn, maxParallel, a.amounts, job.idx, a.amounts[job.idx] + slice);
      units', price' := PricedStep(edges, quote, totalIn, maxParallel, a, units, price, job);
    }
  }

  // ----- the rounds of the loop

  /** One round: the next slice goes to a pool with the largest marginal, if that is positive. */
  ghost predicate Round(edges: Edges, quote: Quoter, totalIn: nat, maxParallel: nat, a: Allocation, job: Job)
    requires |a.amounts| == |a.quoted| == |edges|
  {
    && a.spent < totalIn && job.marginal > 0
    && BestJob(edges, quote, a.amounts, a.quoted, ActiveCount(a.amounts), maxParallel,
               Min(totalIn - a.spent, SliceSize(totalIn)), job)
  }

  ghost predicate RoundTo(edges: Edges, quote: Quoter, totalIn: nat, maxParallel: nat, a: Allocation, a': Allocation) {
    && |a.amounts| == |a.quoted| == |edges|
    && exists job :: Round(edges, quote, totalIn, maxParallel, a, job)
                     && a' == Take(a, job, Min(totalIn - a.spent, SliceSize(totalIn)))
  }

  /** The allocations the loop goes through, from nothing to `a`. */
  ghost predicate GreedyRun(edges: Edges, quote: Quoter, totalIn: nat, maxParallel: nat, run: seq<Allocation>, a: Allocation) {
    && run != [] && run[|run| - 1] == a
    && run[0] == Allocation(seq(|edges|, _ => 0), seq(|edges|, _ => 0), 0)
    && forall k :: 0 < k < |run| ==> RoundTo(edges, quote, totalIn, maxParallel, run[k - 1], run[k])
  }

  lemma RunRound(edges: Edges, quote: Quoter, totalIn: nat, maxParallel: nat, run: seq<Allocation>, a: Allocation, job: Job)
    requires |a.amounts| == |a.quoted| == |edges|
    requires GreedyRun(edges, quote, totalIn, maxParallel, run, a) && Round(edges, quote, totalIn, maxParallel, a, job)
    ensures var a' := Take(a, job, Min(totalIn - a.spent, SliceSize(totalIn)));
      GreedyRun(edges, quote, totalIn, maxParallel, run + [a'], a')
  {
    assert job.idx < |edges|;
    hide BestJob;
    var a' := Take(a, job, Min(totalIn - a.spent, SliceSize(totalIn)));
    assert RoundTo(edges, quote, totalIn, maxParallel, a, a');
    hide RoundTo;
  }

  /** The loop reaches `a`. */
  ghost predicate Reached(edges: Edges, quote: Quoter, totalIn: nat, maxParallel: nat, a: Allocation) {
    exists run :: GreedyRun(edges, quote, totalIn, maxParallel, run, a)
  }

  /** In a round after `a` the quote of an admissible slice fails. */
  ghost predicate SliceFails(edges: Edges, quote: Quoter, totalIn: nat, maxParallel: nat, a: Allocation)
    requires |a.amounts| == |edges|
  {
    && a.spent < totalIn
    && var slice := Min(totalIn - a.spent, SliceSize(totalIn));
       exists i: nat :: i < |edges| && IsJob(edges, a.amounts, ActiveCount(a.amounts), maxParallel, slice, i)
                        && quote(i, SatAdd(a.amounts[i], slice)).None?
  }

  /** The loop reaches a round in which a quote fails. */
  ghost predicate GreedyFails(edges: Edges, quote: Quoter, totalIn: nat, maxParallel: nat) {
    exists a: Allocation :: |a.amounts| == |edges| && Reached(edges, quote, totalIn, maxParallel, a)
                && SliceFails(edges, quote, totalIn, maxParallel, a)
  }

  /** The slice loop of `optimize_pair`. `None` is a failed quote. */
  method GreedyAllocate(edges: Edges, quote: Quoter, totalIn: nat, maxParallel: nat)
    returns (r: Option<Allocation>)
    requires totalIn <= U128_MAX && maxParallel > 0
    ensures r.Some? ==> WellSplit(edges, quote, totalIn, maxParallel, r.value)
    ensures r.Some? ==> Exhausted(edges, quote, totalIn, maxParallel, SliceSize(totalIn), r.value)
    ensures r.Some? && Smooth(edges, quote, totalIn) && LimitIsFree(edges, totalIn, maxParallel, r.value.amounts) ==>
      GreedyOptimal(edges, quote, totalIn, r.value)
    ensures r.Some? ==> Reached(edges, quote, totalIn, maxParallel, r.value)
    ensures r.None? ==> GreedyFails(edges, quote, totalIn, maxParallel)
  {
    hide Smooth, LimitIsFree, Priced, GreedyOptimal, IsJob, BestJob, NoneAbove, Fits, ActiveCount, Sum, RoundTo;
    var slice := SliceSize(totalIn);
    var allocations: seq<nat>, quotedOutputs: seq<nat> := seq(|edges|, _ => 0), seq(|edges|, _ => 0);
    var spent, active := 0, 0;
    ghost var now := Allocation(allocations, quotedOutputs, 0);
    ghost var units, price := LoopStart(edges, quote, totalIn, maxParallel, now);
    ghost var run := [now];
    assert GreedyRun(edges, quote, totalIn, maxParallel, run, now);
    hide GreedyRun;

    while spent < totalIn
      invariant |allocations| == |quotedOutputs| == |edges|
      invariant active == ActiveCount(allocations) && now == Allocation(allocations, quotedOutputs, spent)
      invariant LoopInvariant(edges, quote, totalIn, maxParallel, now, units, price)
      invariant GreedyRun(edges, quote, totalIn, maxParallel, run, now)
    {
      var next := Min(totalIn - spent, slice);
      var ranking := RankJobs(edges, quote, allocations, quotedOutputs, active, maxParallel, next);
      if ranking.QuoteFailed? {
        assert SliceFails(edges, quote, totalIn, maxParallel, now);
        return None;
      }
      if ranking.NoJob? || ranking.job.marginal == 0 {
        break;
      }
      var job := ranking.job;
      units, price := LoopStep(edges, quote, totalIn, maxParallel, now, units, price, job);
      RunRound(edges, quote, totalIn, maxParallel, run, now, job);
      if allocations[job.idx] == 0 {
        active := active + 1;
      }
      allocations := allocations[job.idx := SatAdd(allocations[job.idx], next)];
      quotedOutputs := quotedOutputs[job.idx := job.total];
      spent := SatAdd(spent, next);
      now := Take(now, job, next);
      run := run + [now];
    }

    LoopEnd(edges, quote, totalIn, maxParallel, now, units, price);
    return Some(Allocation(allocations, quotedOutputs, spent));
  }

  lemma LoopEnd(edges: Edges, quote: Quoter, totalIn: nat, maxParallel: nat, a: Allocation,
                units: seq<nat>, price: int)
    requires totalIn <= U128_MAX
    requires LoopInvariant(edges, quote, totalIn, maxParallel, a, units, price)
    requires Exhausted(edges, quote, totalIn, maxParallel, SliceSize(totalIn), a)
    ensures Smooth(edges, quote, totalIn) && LimitIsFree(edges, totalIn, maxParallel, a.amounts) ==>
      GreedyOptimal(edges, quote, totalIn, a)
  {
    if Smooth(edges, quote, totalIn) && LimitIsFree(edges, totalIn, maxParallel, a.amounts) {
      PricedEnd(edges, quote, totalIn, maxParallel, a, units, price);
    }
  }

  // ----- one best pool, and turning allocations into plans

  /** `edge` is the position of the pool among the ranked edges. */
  datatype Plan = Plan(edge: nat, amountIn: nat, minOut: nat, expected: nat)

  /** The least output a split insists on. */
  function MinOut(edge: PoolEdge, expected: nat): nat {
    SatMul(expected, edge.minBps) / 10_000
  }

  function PlanFor(edges: Edges, i: nat, amount: nat, expected: nat): Plan
    requires i < |edges| && edges[i].Some?
  {
    Plan(i, amount, MinOut(edges[i].value, expected), expected)
  }

  function AmountsOf(plans: seq<Plan>): seq<nat> {
    seq(|plans|, i requires 0 <= i < |plans| => plans[i].amountIn)
  }

  function ExpectedOf(plans: seq<Plan>): seq<nat> {
    seq(|plans|, i requires 0 <= i < |plans| => plans[i].expected)
  }

  /** The plans for the first `n` pools: one per positive allocation whose edge resolves
      and whose quote is positive. */
  function PlansOf(edges: Edges, quote: Quoter, amounts: seq<nat>, n: nat): seq<Plan>
    requires n <= |amounts| <= |edges|
  {
    if n == 0 then []
    else
      var rest := PlansOf(edges, quote, amounts, n - 1);
      var asked := quote(n - 1, amounts[n - 1]);
      if amounts[n - 1] > 0 && edges[n - 1].Some? && asked.Some? && asked.value > 0
      then rest + [PlanFor(edges, n - 1, amounts[n - 1], asked.value)]
      else rest
  }

  /** Plans never spend more than was allocated, and spend all of it when every
      allocation yields something. */
  lemma {:induction false} PlansConserveInput(edges: Edges, quote: Quoter, amounts: seq<nat>, n: nat)
    requires n <= |amounts| <= |edges|
    ensures Sum(AmountsOf(PlansOf(edges, quote, amounts, n))) <= Sum(amounts[..n])
    ensures (forall i :: 0 <= i < n && amounts[i] > 0 ==>
               edges[i].Some? && quote(i, amounts[i]).Some? && quote(i, amounts[i]).value > 0) ==>
      Sum(AmountsOf(PlansOf(edges, quote, amounts, n))) == Sum(amounts[..n])
  {
    if n > 0 {
      PlansConserveInput(edges, quote, amounts, n - 1);
      assert amounts[..n][..n - 1] == amounts[..n - 1];
      var rest := PlansOf(edges, quote, amounts, n - 1);
      var asked := quote(n - 1, amounts[n - 1]);
      if edges[n - 1].Some? && asked.Some? {
        PushPlan(rest, PlanFor(edges, n - 1, amounts[n - 1], asked.value));
      }
    }
  }

  /** The plans of a greedy allocation spend exactly what was assigned and expect exactly
      what was quoted. */
  lemma {:induction false} GreedyPlans(edges: Edges, quote: Quoter, totalIn: nat, maxParallel: nat, a: Allocation)
    requires WellSplit(edges, quote, totalIn, maxParallel, a)
    ensures Sum(AmountsOf(PlansOf(edges, quote, a.amounts, |edges|))) == a.spent
    ensures Sum(ExpectedOf(PlansOf(edges, quote, a.amounts, |edges|))) == Sum(a.quoted)
  {
    PlansConserveInput(edges, quote, a.amounts, |edges|);
    assert a.amounts[..|edges|] == a.amounts && a.quoted[..|edges|] == a.quoted;
    GreedyPlansExpect(edges, quote, a, |edges|);
  }

  lemma {:induction false} GreedyPlansExpect(edges: Edges, quote: Quoter, a: Allocation, n: nat)
    requires n <= |edges| == |a.amounts| == |a.quoted|
    requires forall i :: 0 <= i < |edges| ==>
      if a.amounts[i] == 0 then a.quoted[i] == 0
      else edges[i].Some? && quote(i, a.amounts[i]) == Some(a.quoted[i]) && a.quoted[i] > 0
    ensures Sum(ExpectedOf(PlansOf(edges, quote, a.amounts, n))) == Sum(a.quoted[..n])
  {
    if n > 0 {
      GreedyPlansExpect(edges, quote, a, n - 1);
      assert a.quoted[..n][..n - 1] == a.quoted[..n - 1];
      var rest := PlansOf(edges, quote, a.amounts, n - 1);
      if a.amounts[n - 1] > 0 {
        PushPlan(rest, PlanFor(edges, n - 1, a.amounts[n - 1], a.quoted[n - 1]));
      }
    }
  }

  lemma PushPlan(plans: seq<Plan>, plan: Plan)
    ensures Sum(ExpectedOf(plans + [plan])) == Sum(ExpectedOf(plans)) + plan.expected
    ensures Sum(AmountsOf(plans + [plan])) == Sum(AmountsOf(plans)) + plan.amountIn
  {
    assert ExpectedOf(plans + [plan]) == ExpectedOf(plans) + [plan.expected];
    assert AmountsOf(plans + [plan]) == AmountsOf(plans) + [plan.amountIn];
    SumPush(ExpectedOf(plans), plan.expected);
    SumPush(AmountsOf(plans), plan.amountIn);
  }

  // ----- the order of the plans

  predicate OnEdge(edges: Edges, plan: Plan) {
    plan.edge < |edges| && edges[plan.edge].Some?
  }

  function PoolIdOf(edges: Edges, plan: Plan): nat {
    if OnEdge(edges, plan) then edges[plan.edge].value.poolId else 0
  }

  /** Larger expected output first, then the lower pool id. */
  function PlanOrder(edges: Edges): (Plan, Plan) -> bool {
    (a: Plan, b: Plan) =>
      if a.expected != b.expected then a.expected > b.expected else PoolIdOf(edges, a) <= PoolIdOf(edges, b)
  }

  lemma PlanOrderIsTotal(edges: Edges)
    ensures TotalPreorder(PlanOrder(edges))
  {
    hide PoolIdOf;
  }

  /** The plan that expects most comes first, of equals the one with the lower pool id. */
  ghost predicate BestFirst(edges: Edges, plans: seq<Plan>) {
    forall i, j :: 0 <= i < j < |plans| ==>
      && plans[i].expected >= plans[j].expected
      && (plans[i].expected == plans[j].expected && OnEdge(edges, plans[i]) && OnEdge(edges, plans[j]) ==>
            edges[plans[i].edge].value.poolId <= edges[plans[j].edge].value.poolId)
  }

  lemma SortedPlansInOrder(edges: Edges, plans: seq<Plan>)
    requires SortedBy(plans, PlanOrder(edges))
    ensures BestFirst(edges, plans)
  {
    forall i, j | 0 <= i < j < |plans|
      ensures plans[i].expected >= plans[j].expected
      ensures plans[i].expected == plans[j].expected && OnEdge(edges, plans[i]) && OnEdge(edges, plans[j]) ==>
        edges[plans[i].edge].value.poolId <= edges[plans[j].edge].value.poolId
    {
      assert PlanOrder(edges)(plans[i], plans[j]);
    }
  }

  function FinalPlans(edges: Edges, quote: Quoter, amounts: seq<nat>): seq<Plan>
    requires |amounts| <= |edges|
  {
    Sort(PlansOf(edges, quote, amounts, |amounts|), PlanOrder(edges))
  }

  lemma {:induction false} InsertKeepsSums(plans: seq<Plan>, plan: Plan, le: (Plan, Plan) -> bool)
    ensures Sum(AmountsOf(InsertAfter(plans, plan, le))) == Sum(AmountsOf(plans)) + plan.amountIn
    ensures Sum(ExpectedOf(InsertAfter(plans, plan, le))) == Sum(ExpectedOf(plans)) + plan.expected
  {
    PushPlan(plans, plan);
    if plans != [] && !le(plans[|plans| - 1], plan) {
      var init, last := plans[..|plans| - 1], plans[|plans| - 1];
      InsertKeepsSums(init, plan, le);
      PushPlan(init, last);
      PushPlan(InsertAfter(init, plan, le), last);
      assert plans == init + [last];
    }
  }

  /** Sorting changes neither what the plans spend nor what they expect. */
  lemma {:induction false} SortKeepsSums(plans: seq<Plan>, le: (Plan, Plan) -> bool)
    ensures Sum(AmountsOf(Sort(plans, le))) == Sum(AmountsOf(plans))
    ensures Sum(ExpectedOf(Sort(plans, le))) == Sum(ExpectedOf(plans))
  {
    if plans != [] {
      var init, last := plans[..|plans| - 1], plans[|plans| - 1];
      SortKeepsSums(init, le);
      InsertKeepsSums(Sort(init, le), last, le);
      PushPlan(init, last);
      assert plans == init + [last];
    }
  }

  /** `single_best`: the pool that can take the whole input and pays most for it. */
  method SingleBest(edges: Edges, quote: Quoter, totalIn: nat) returns (r: Option<Option<Plan>>)
    ensures r.Some? && r.value.Some? ==>
      && r.value.value.edge < |edges| && Fits(edges[r.value.value.edge], totalIn)
      && quote(r.value.value.edge, totalIn) == Some(r.value.value.expected)
      && r.value.value == PlanFor(edges, r.value.value.edge, totalIn, r.value.value.expected)
      && r.value.value.expected > 0
    ensures r.Some? ==> forall i: nat :: i < |edges| && Fits(edges[i], totalIn) ==>
      && quote(i, totalIn).Some?
      && quote(i, totalIn).value <= (if r.value.None? then 0 else r.value.value.expected)
    ensures r.None? ==> SingleFails(edges, quote, totalIn)
  {
    var best: Option<Plan> := None;
    var i := 0;
    while i < |edges|
      invariant 0 <= i <= |edges|
      invariant best.Some? ==>
        && best.value.edge < |edges| && Fits(edges[best.value.edge], totalIn)
        && quote(best.value.edge, totalIn) == Some(best.value.expected) && best.value.expected > 0
        && best.value == PlanFor(edges, best.value.edge, totalIn, best.value.expected)
      invariant forall k: nat :: k < i && Fits(edges[k], totalIn) ==>
        && quote(k, totalIn).Some?
        && quote(k, totalIn).value <= (if best.None? then 0 else best.value.expected)
    {
      if Fits(edges[i], totalIn) {
        match quote(i, totalIn) {
          case None => return None;
          case Some(out) =>
            if out > 0 && (best.None? || out > best.value.expected) {
              best := Some(PlanFor(edges, i, totalIn, out));
            }
        }
      }
      i := i + 1;
    }
    return Some(best);
  }

  /** `materialize_allocations_with_quotes`: reuse positive quotes, ask again for the
      others, drop what yields nothing, and sort. */
  method Materialize(edges: Edges, quote: Quoter, amounts: seq<nat>, known: Option<seq<nat>>)
    returns (r: Option<(seq<Plan>, nat)>)
    requires |amounts| <= |edges|
    requires known.Some? ==> |known.value| == |amounts|
    requires known.Some? ==> forall i :: 0 <= i < |amounts| && amounts[i] > 0 && known.value[i] > 0 ==>
      quote(i, amounts[i]) == Some(known.value[i])
    ensures r.Some? ==> r.value.0 == FinalPlans(edges, quote, amounts) && SortedBy(r.value.0, PlanOrder(edges))
    ensures r.Some? ==> r.value.1 == Min(Sum(ExpectedOf(r.value.0)), U128_MAX)
    ensures r.None? <==> AmountFails(edges, quote, amounts)
  {
    hide PlanOrder, SortedBy, MinOut;
    var plans: seq<Plan> := [];
    var totalOut := 0;
    var i := 0;
    while i < |amounts|
      invariant 0 <= i <= |amounts|
      invariant plans == PlansOf(edges, quote, amounts, i)
      invariant totalOut == Min(Sum(ExpectedOf(plans)), U128_MAX)
      invariant forall k: nat :: k < i && amounts[k] > 0 && edges[k].Some? ==> quote(k, amounts[k]).Some?
    {
      if amounts[i] > 0 && edges[i].Some? {
        var expected;
        if known.Some? && known.value[i] > 0 {
          expected := known.value[i];
        } else {
          var asked := quote(i, amounts[i]);
          if asked.None? {
            return None;
          }
          expected := asked.value;
        }
        if expected > 0 {
          PushPlan(plans, PlanFor(edges, i, amounts[i], expected));
          plans := plans + [PlanFor(edges, i, amounts[i], expected)];
          totalOut := SatAdd(totalOut, expected);
        }
      }
      i := i + 1;
    }
    PlanOrderIsTotal(edges);
    SortSorts(plans, PlanOrder(edges));
    SortKeepsSums(plans, PlanOrder(edges));
    return Some((Sort(plans, PlanOrder(edges)), totalOut));
  }

  // ----- the whole hop

  predicate ShouldSplit(poolCount: nat, totalIn: nat, slice: nat) {
    poolCount > 1 && totalIn >= SatMul(slice, 2)
  }

  /** A hop is split when there are two pools and two units to split. */
  lemma SplitsWhenPossible(poolCount: nat, totalIn: nat)
    requires totalIn <= U128_MAX
    ensures ShouldSplit(poolCount, totalIn, SliceSize(totalIn)) <==> poolCount >= 2 && totalIn >= 2
  {}

  /** The plan stays within its pool's cap, spends something, and expects what the pool quotes. */
  predicate SoundPlan(edges: Edges, quote: Quoter, plan: Plan) {
    && plan.edge < |edges| && plan.amountIn > 0 && plan.expected > 0
    && Fits(edges[plan.edge], plan.amountIn)
    && quote(plan.edge, plan.amountIn) == Some(plan.expected)
    && plan.minOut == MinOut(edges[plan.edge].value, plan.expected)
  }

  ghost predicate SoundPlans(edges: Edges, quote: Quoter, plans: seq<Plan>) {
    forall plan :: plan in plans ==> SoundPlan(edges, quote, plan)
  }

  /** A split never insists on more than it expects. */
  lemma InsistsOnNoMore(edges: Edges, quote: Quoter, plan: Plan)
    requires SoundPlan(edges, quote, plan) && edges[plan.edge].value.minBps <= 10_000
    ensures plan.minOut <= plan.expected
  {
    var bps := edges[plan.edge].value.minBps;
    MulMono(bps, 10_000, plan.expected);
    DivBounds(SatMul(plan.expected, bps), 10_000);
    QuotientMono(plan.minOut, plan.expected, plan.minOut * 10_000, plan.expected * 10_000, 10_000);
  }

  /** In plain terms: a plan spends at most a positive cap of its pool, and insists on the pool's share of what it
      expects, rounded down. */
  lemma PlanInPlainTerms(edges: Edges, quote: Quoter, plan: Plan)
    requires SoundPlan(edges, quote, plan)
    ensures plan.amountIn > 0 && plan.expected > 0 && quote(plan.edge, plan.amountIn) == Some(plan.expected)
    ensures edges[plan.edge].value.capacity == 0 || plan.amountIn <= edges[plan.edge].value.capacity
    ensures plan.expected * edges[plan.edge].value.minBps <= U128_MAX ==>
      plan.minOut * 10_000 <= plan.expected * edges[plan.edge].value.minBps < (plan.minOut + 1) * 10_000
    ensures plan.expected * edges[plan.edge].value.minBps > U128_MAX ==> plan.minOut == U128_MAX / 10_000
  {
    DivBounds(SatMul(plan.expected, edges[plan.edge].value.minBps), 10_000);
  }

  ghost predicate FitAll(edges: Edges, amounts: seq<nat>) {
    && |amounts| <= |edges|
    && forall i :: 0 <= i < |amounts| && amounts[i] > 0 && edges[i].Some? ==> Fits(edges[i], amounts[i])
  }

  lemma {:induction false} PlansAreSound(edges: Edges, quote: Quoter, amounts: seq<nat>, n: nat)
    requires FitAll(edges, amounts) && n <= |amounts|
    ensures SoundPlans(edges, quote, PlansOf(edges, quote, amounts, n))
    ensures |PlansOf(edges, quote, amounts, n)| <= ActiveCount(amounts[..n])
  {
    if n > 0 {
      hide MinOut, Fits;
      PlansAreSound(edges, quote, amounts, n - 1);
      assert amounts[..n][..n - 1] == amounts[..n - 1];
    }
  }

  /** The legs of the first pools, as `optimal_v2_allocations` builds them. */
  ghost predicate LegsMatch(edges: Edges, maxParallel: nat, legs: seq<V2Split.Leg>) {
    && V2Split.ValidLegs(legs)
    && |legs| == Min(|edges|, maxParallel)
    && forall i :: 0 <= i < |legs| ==>
         && edges[i].Some?
         && legs[i].capacity == (if edges[i].value.capacity > 0 then Some(edges[i].value.capacity) else None)
  }

  lemma AllocatedFit(edges: Edges, maxParallel: nat, legs: seq<V2Split.Leg>, amounts: seq<nat>)
    requires LegsMatch(edges, maxParallel, legs) && V2Split.UnitsWithinCaps(legs, amounts)
    ensures FitAll(edges, amounts)
  {
    forall i | 0 <= i < |amounts| && amounts[i] > 0 && edges[i].Some? ensures Fits(edges[i], amounts[i]) {
      assert legs[i].capacity.Some? ==> amounts[i] <= legs[i].capacity.value;
    }
  }

  /** Without a split: the pool that pays most for the whole input, or nothing. */
  ghost predicate BestSingle(edges: Edges, quote: Quoter, totalIn: nat, plans: seq<Plan>) {
    && |plans| <= 1 && (plans != [] ==> plans[0].amountIn == totalIn)
    && (totalIn > 0 ==> forall i: nat :: i < |edges| && Fits(edges[i], totalIn) ==>
          quote(i, totalIn).Some? && quote(i, totalIn).value <= (if plans == [] then 0 else plans[0].expected))
  }

  /** The plans of the water-filling allocation of exactly the input. */
  ghost predicate WaterFilled(edges: Edges, quote: Quoter, legs: seq<V2Split.Leg>, totalIn: nat, sqrt: real -> real, plans: seq<Plan>)
    requires V2Split.ValidLegs(legs)
  {
    exists amounts ::
      && V2Split.WaterLevel(legs, totalIn, sqrt, amounts) && |amounts| <= |edges|
      && plans == FinalPlans(edges, quote, amounts) && plans != []
  }

  /** There is no water-filling allocation, or none of its amounts buys anything. */
  ghost predicate WaterYieldsNothing(edges: Edges, legs: Option<seq<V2Split.Leg>>, quote: Quoter, totalIn: nat, sqrt: real -> real)
    requires legs.Some? ==> V2Split.ValidLegs(legs.value)
  {
    legs.Some? && V2Split.Feasible(legs.value, totalIn) ==>
      exists amounts :: |amounts| <= |edges| && V2Split.WaterLevel(legs.value, totalIn, sqrt, amounts)
                        && FinalPlans(edges, quote, amounts) == []
  }

  /** The plans of an allocation the greedy loop ends with. */
  ghost predicate GreedilySplit(edges: Edges, quote: Quoter, totalIn: nat, maxParallel: nat, plans: seq<Plan>) {
    exists a :: GreedyResult(edges, quote, totalIn, maxParallel, a) && plans == FinalPlans(edges, quote, a.amounts)
                && Sum(AmountsOf(plans)) == a.spent && Sum(ExpectedOf(plans)) == Sum(a.quoted)
  }

  ghost predicate GreedyResult(edges: Edges, quote: Quoter, totalIn: nat, maxParallel: nat, a: Allocation) {
    && WellSplit(edges, quote, totalIn, maxParallel, a)
    && Exhausted(edges, quote, totalIn, maxParallel, SliceSize(totalIn), a)
    && Reached(edges, quote, totalIn, maxParallel, a)
    && (Smooth(edges, quote, totalIn) && LimitIsFree(edges, totalIn, maxParallel, a.amounts) ==>
          GreedyOptimal(edges, quote, totalIn, a))
  }

  /** The quote of the whole input fails on a pool that could take it. */
  ghost predicate SingleFails(edges: Edges, quote: Quoter, totalIn: nat) {
    exists i: nat :: i < |edges| && Fits(edges[i], totalIn) && quote(i, totalIn).None?
  }

  /** The quote of an allocated amount fails. */
  ghost predicate AmountFails(edges: Edges, quote: Quoter, amounts: seq<nat>)
    requires |amounts| <= |edges|
  {
    exists i: nat :: i < |amounts| && amounts[i] > 0 && edges[i].Some? && quote(i, amounts[i]).None?
  }

  /** The sum of the rounded water-filling allocation overflows although the caps can hold the input, or
      the quote of an amount of the final one fails. */
  ghost predicate WaterFails(edges: Edges, quote: Quoter, legs: seq<V2Split.Leg>, totalIn: nat, sqrt: real -> real)
    requires V2Split.ValidLegs(legs)
  {
    || (V2Split.Feasible(legs, totalIn) && V2Split.RoundingOverflows(legs, totalIn, sqrt))
    || exists amounts :: |amounts| <= |edges| && V2Split.WaterLevel(legs, totalIn, sqrt, amounts) && AmountFails(edges, quote, amounts)
  }

  /** A quote the branch asks for fails, or the split overflows. */
  ghost predicate HopFails(edges: Edges, legs: Option<seq<V2Split.Leg>>, quote: Quoter, totalIn: nat, maxParallel: nat, sqrt: real -> real)
    requires legs.Some? ==> V2Split.ValidLegs(legs.value)
  {
    && edges != []
    && if !ShouldSplit(|edges|, totalIn, SliceSize(totalIn)) then SingleFails(edges, quote, totalIn)
       else (legs.Some? && WaterFails(edges, quote, legs.value, totalIn, sqrt)) || GreedyFails(edges, quote, totalIn, maxParallel)
  }

  /** Every amount within its cap buys something. */
  ghost predicate AlwaysPays(edges: Edges, quote: Quoter) {
    forall i: nat, amount: nat :: i < |edges| && amount > 0 && Fits(edges[i], amount) ==>
      quote(i, amount).Some? && quote(i, amount).value > 0
  }

  /** `optimize_pair` on ranked edges. `legs` is `None` when one of the first pools is not a
      usable constant-product pool; `None` as a result is a failed quote or an arithmetic overflow.
      Without a split the best single pool takes the input; otherwise the water-filling allocation
      of the whole input is used if it yields plans, and the greedy one if not. */
  method OptimizePair(edges: Edges, legs: Option<seq<V2Split.Leg>>, quote: Quoter, totalIn: nat,
                      maxParallel: nat, sqrt: real -> real)
    returns (r: Option<(seq<Plan>, nat)>)
    requires totalIn <= U128_MAX && maxParallel > 0
    requires legs.Some? ==> LegsMatch(edges, maxParallel, legs.value)
    ensures r.None? ==> HopFails(edges, legs, quote, totalIn, maxParallel, sqrt)
    ensures r.Some? ==> SoundPlans(edges, quote, r.value.0)
    ensures r.Some? ==> |r.value.0| <= maxParallel && BestFirst(edges, r.value.0)
    ensures r.Some? ==> Sum(AmountsOf(r.value.0)) <= totalIn
    ensures r.Some? ==> r.value.1 == Min(Sum(ExpectedOf(r.value.0)), U128_MAX)
    ensures r.Some? && edges != [] ==>
      if !ShouldSplit(|edges|, totalIn, SliceSize(totalIn)) then BestSingle(edges, quote, totalIn, r.value.0)
      else || (legs.Some? && WaterFilled(edges, quote, legs.value, totalIn, sqrt, r.value.0))
           || (WaterYieldsNothing(edges, legs, quote, totalIn, sqrt) && GreedilySplit(edges, quote, totalIn, maxParallel, r.value.0))
    ensures r.Some? && edges != [] && ShouldSplit(|edges|, totalIn, SliceSize(totalIn)) && legs.Some?
            && V2Split.Feasible(legs.value, totalIn) && totalIn > 0 && AlwaysPays(edges, quote) ==>
      Sum(AmountsOf(r.value.0)) == totalIn
  {
    hide PlansOf, FinalPlans, WellSplit, GreedyOptimal, LimitIsFree, Smooth, V2Split.RoundingOverflows, V2Split.Feasible, NoneAbove,
         SoundPlan, Fits, Exhausted, LegsMatch, AlwaysPays, V2Split.WaterLevel, V2Split.ValidLegs, Reached, GreedyFails, AmountFails,
         SingleFails, BestFirst, SortedBy, PlanOrder;
    var slice := SliceSize(totalIn);
    if edges == [] {
      FewInOrder(edges, []);
      return Some(([], 0));
    }
    if !ShouldSplit(|edges|, totalIn, slice) {
      r := UnsplitPlans(edges, quote, totalIn);
      if r.Some? {
        FewInOrder(edges, r.value.0);
      }
      return;
    }
    if legs.Some? && totalIn > 0 {
      LegsAreValid(edges, maxParallel, legs.value);
      var solved := V2Split.SolveAllocations(legs.value, totalIn, sqrt);
      if solved.Overflow? {
        return None;
      }
      if solved.Allocated? {
        LevelFacts(legs.value, totalIn, sqrt, solved.amounts);
        AllocatedFit(edges, maxParallel, legs.value, solved.amounts);
        LegCount(edges, maxParallel, legs.value, solved.amounts);
        ActiveCountAtMost(solved.amounts);
        WholePlans(edges, quote, solved.amounts);
        r := Materialize(edges, quote, solved.amounts, None);
        if r.None? {
          assert AmountFails(edges, quote, solved.amounts);
          return;
        }
        SortedPlansInOrder(edges, r.value.0);
        if AlwaysPays(edges, quote) {
          PayingPlans(edges, quote, legs.value, maxParallel, solved.amounts);
        }
        if r.value.0 != [] {
          return;
        }
      } else {
        NotFeasible(legs.value, totalIn);
      }
    }
    assert WaterYieldsNothing(edges, legs, quote, totalIn, sqrt);
    var greedy := GreedyAllocate(edges, quote, totalIn, maxParallel);
    if greedy.None? {
      return None;
    }
    SplitFits(edges, quote, totalIn, maxParallel, greedy.value);
    WholePlans(edges, quote, greedy.value.amounts);
    r := Materialize(edges, quote, greedy.value.amounts, Some(greedy.value.quoted));
    GreedyPlans(edges, quote, totalIn, maxParallel, greedy.value);
    SortedGreedyPlans(edges, quote, totalIn, maxParallel, greedy.value, r.value.0);
    SortedPlansInOrder(edges, r.value.0);
  }

  /** The branch without a split. */
  method UnsplitPlans(edges: Edges, quote: Quoter, totalIn: nat) returns (r: Option<(seq<Plan>, nat)>)
    ensures r.None? ==> SingleFails(edges, quote, totalIn)
    ensures r.Some? ==> SoundPlans(edges, quote, r.value.0) && BestSingle(edges, quote, totalIn, r.value.0)
    ensures r.Some? ==> |r.value.0| <= 1 && Sum(AmountsOf(r.value.0)) <= totalIn
    ensures r.Some? ==> r.value.1 == Min(Sum(ExpectedOf(r.value.0)), U128_MAX)
  {
    var best := SingleBest(edges, quote, totalIn);
    if best.None? {
      return None;
    }
    if best.value.None? || totalIn == 0 {
      return Some(([], 0));
    }
    PushPlan([], best.value.value);
    assert [] + [best.value.value] == [best.value.value];
    return Some(([best.value.value], Min(best.value.value.expected, U128_MAX)));
  }

  lemma FewInOrder(edges: Edges, plans: seq<Plan>)
    requires |plans| <= 1
    ensures BestFirst(edges, plans)
  {}

  lemma LegsAreValid(edges: Edges, maxParallel: nat, legs: seq<V2Split.Leg>)
    requires LegsMatch(edges, maxParallel, legs)
    ensures V2Split.ValidLegs(legs)
  {
    hide V2Split.ValidLegs;
  }

  lemma LegCount(edges: Edges, maxParallel: nat, legs: seq<V2Split.Leg>, amounts: seq<nat>)
    requires LegsMatch(edges, maxParallel, legs) && V2Split.UnitsWithinCaps(legs, amounts)
    ensures |amounts| <= maxParallel && |amounts| <= |edges|
  {
    hide V2Split.ValidLegs;
  }

  lemma NotFeasible(legs: seq<V2Split.Leg>, totalIn: nat)
    requires totalIn > 0 && (legs == [] || !V2Split.Feasible(legs, totalIn))
    ensures !V2Split.Feasible(legs, totalIn)
  {
    if legs == [] {
      assert V2Split.Caps([]) == [];
    }
  }

  lemma LevelFacts(legs: seq<V2Split.Leg>, totalIn: nat, sqrt: real -> real, amounts: seq<nat>)
    requires V2Split.ValidLegs(legs) && V2Split.WaterLevel(legs, totalIn, sqrt, amounts)
    ensures V2Split.UnitsWithinCaps(legs, amounts) && Sum(amounts) == totalIn
  {}

  /** When every amount pays, the plans spend the whole allocation, and there are some. */
  lemma PayingPlans(edges: Edges, quote: Quoter, legs: seq<V2Split.Leg>, maxParallel: nat, amounts: seq<nat>)
    requires AlwaysPays(edges, quote) && FitAll(edges, amounts) && Sum(amounts) > 0
    requires LegsMatch(edges, maxParallel, legs) && V2Split.UnitsWithinCaps(legs, amounts)
    ensures Sum(AmountsOf(FinalPlans(edges, quote, amounts))) == Sum(amounts)
    ensures FinalPlans(edges, quote, amounts) != []
  {
    hide Fits, PlanOrder, PlansOf, V2Split.ValidLegs;
    PlansConserveInput(edges, quote, amounts, |amounts|);
    assert amounts[..|amounts|] == amounts;
    SortKeepsSums(PlansOf(edges, quote, amounts, |amounts|), PlanOrder(edges));
    assert Sum(AmountsOf([])) == 0;
  }

  lemma SplitFits(edges: Edges, quote: Quoter, totalIn: nat, maxParallel: nat, a: Allocation)
    requires WellSplit(edges, quote, totalIn, maxParallel, a)
    ensures FitAll(edges, a.amounts) && ActiveCount(a.amounts) <= maxParallel && Sum(a.amounts) <= totalIn
    ensures |a.quoted| == |a.amounts| == |edges|
    ensures forall i :: 0 <= i < |a.amounts| && a.amounts[i] > 0 && a.quoted[i] > 0 ==>
      quote(i, a.amounts[i]) == Some(a.quoted[i])
    ensures !AmountFails(edges, quote, a.amounts)
  {
    hide Fits;
  }

  lemma SortedGreedyPlans(edges: Edges, quote: Quoter, totalIn: nat, maxParallel: nat, a: Allocation, plans: seq<Plan>)
    requires |a.amounts| == |edges| && plans == FinalPlans(edges, quote, a.amounts)
    requires GreedyResult(edges, quote, totalIn, maxParallel, a)
    requires Sum(AmountsOf(PlansOf(edges, quote, a.amounts, |edges|))) == a.spent
    requires Sum(ExpectedOf(PlansOf(edges, quote, a.amounts, |edges|))) == Sum(a.quoted)
    ensures GreedilySplit(edges, quote, totalIn, maxParallel, plans)
  {
    hide GreedyResult, PlansOf, PlanOrder;
    SortKeepsSums(PlansOf(edges, quote, a.amounts, |edges|), PlanOrder(edges));
  }

  lemma WholePlans(edges: Edges, quote: Quoter, amounts: seq<nat>)
    requires FitAll(edges, amounts)
    ensures var plans := FinalPlans(edges, quote, amounts);
      && SoundPlans(edges, quote, plans)
      && |plans| <= ActiveCount(amounts)
      && Sum(AmountsOf(plans)) <= Sum(amounts)
  {
    var plans := PlansOf(edges, quote, amounts, |amounts|);
    PlansAreSound(edges, quote, amounts, |amounts|);
    PlansConserveInput(edges, quote, amounts, |amounts|);
    assert amounts[..|amounts|] == amounts;
    hide SoundPlan, PlanOrder, PlansOf;
    SortMembers(plans, PlanOrder(edges));
    SortKeepsSums(plans, PlanOrder(edges));
  }
}
