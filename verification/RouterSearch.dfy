/** The amount search of the router (`src/router/mod.rs`): memoised evaluation, ternary
    narrowing and the dense tail. A quote is an arbitrary function of the amount. */
module RouterSearch {
  import opened Common
  import S = SplitOptimizer
  import V2Split

  const I128_MIN: int := -0x8000_0000_0000_0000_0000_0000_0000_0000

  /** The part of `ExactPlan` the search looks at. */
  datatype Plan = Plan(input: nat, profit: int)

  /** `Err` is a failed quote, `Ok(None)` an amount without a profitable plan. */
  type Quoter = nat -> Result<Option<Plan>>

  function ProfitAt(quote: Quoter, amount: nat): int {
    match quote(amount)
    case Ok(Some(plan)) => plan.profit
    case _ => I128_MIN
  }

  /** `better_plan`: the first of the most profitable plans stays. */
  function BetterPlan(current: Option<Plan>, next: Plan): Option<Plan> {
    if current.None? || next.profit > current.value.profit then Some(next) else current
  }

  // ----- memoised evaluation

  class Evaluator {
    const quote: Quoter
    var evaluated: map<nat, Option<Plan>>

    /** What is remembered is what a fresh quote would say. */
    ghost predicate Valid()
      reads this
    {
      forall a :: a in evaluated ==> quote(a) == Ok(evaluated[a])
    }

    constructor (quote: Quoter)
      ensures Valid() && this.quote == quote && evaluated == map[]
    {
      this.quote := quote;
      evaluated := map[];
    }

    /** `evaluate_amount` */
    method EvaluateAmount(amount: nat) returns (r: Result<Option<Plan>>)
      requires Valid()
      modifies this
      ensures Valid() && r == quote(amount)
      ensures evaluated == if r.Ok? then old(evaluated)[amount := r.value] else old(evaluated)
    {
      if amount in evaluated {
        assert old(evaluated)[amount := evaluated[amount]] == old(evaluated);
        return Ok(evaluated[amount]);
      }
      r := quote(amount);
      if r.Ok? {
        evaluated := evaluated[amount := r.value];
      }
    }

    /** `evaluate_profit` */
    method EvaluateProfit(amount: nat) returns (r: Result<int>)
      requires Valid()
      modifies this
      ensures Valid()
      ensures r == if quote(amount).Ok? then Ok(ProfitAt(quote, amount)) else Err
    {
      var plan := EvaluateAmount(amount);
      if plan.Err? {
        return Err;
      }
      return Ok(if plan.value.Some? then plan.value.value.profit else I128_MIN);
    }

    /** Evaluate a list of amounts and keep the best plan. */
    method Sweep(amounts: seq<nat>, best: Option<Plan>) returns (r: Result<Option<Plan>>)
      requires Valid()
      modifies this
      ensures Valid()
      ensures r.Ok? ==> SweptFrom(quote, amounts, best, r.value)
      ensures r.Err? <==> AnyFails(quote, amounts)
    {
      var now := best;
      for i := 0 to |amounts|
        invariant Valid()
        invariant SweptFrom(quote, amounts[..i], best, now)
        invariant forall j :: 0 <= j < i ==> quote(amounts[j]).Ok?
      {
        var plan := EvaluateAmount(amounts[i]);
        if plan.Err? {
          return Err;
        }
        assert amounts[..i + 1] == amounts[..i] + [amounts[i]];
        hide SweptFrom;
        SweptOne(quote, amounts[..i], best, now, amounts[i]);
        if plan.value.Some? {
          now := BetterPlan(now, plan.value.value);
        }
      }
      assert amounts[..|amounts|] == amounts;
      return Ok(now);
    }

    /** One round: compare the two inner thirds. */
    method NarrowOnce(low: nat, high: nat) returns (r: Result<(nat, nat)>)
      requires Valid() && low + 2 < high
      modifies this
      ensures Valid()
      ensures r.Ok? ==> r.value == TernaryStep(quote, low, high)
      ensures r.Err? <==> AnyFails(quote, Thirds(low, high))
    {
      var width := high - low;
      var midLeft, midRight := low + width / 3, high - width / 3;
      assert Thirds(low, high)[0] == midLeft && Thirds(low, high)[1] == midRight;
      var leftProfit := EvaluateProfit(midLeft);
      if leftProfit.Err? {
        return Err;
      }
      var rightProfit := EvaluateProfit(midRight);
      if rightProfit.Err? {
        return Err;
      }
      if leftProfit.value < rightProfit.value {
        return Ok((midLeft + 1, high));
      }
      return Ok((low, Max(SatSub(midRight, 1), low)));
    }

    /** The narrowing loop. */
    method NarrowBracket(low0: nat, high0: nat, rounds: nat) returns (r: Result<(nat, nat)>)
      requires Valid() && low0 <= high0
      modifies this
      ensures Valid()
      ensures r.Ok? ==> r.value == Narrow(quote, low0, high0, rounds)
      ensures r.Err? <==> AnyFails(quote, Probes(quote, low0, high0, rounds))
    {
      hide TernaryStep, AnyFails, Thirds;
      NothingFails(quote);
      var low, high := low0, high0;
      var left: nat := rounds;
      while left > 0 && high - low > 32
        invariant Valid()
        invariant low <= high
        invariant Narrow(quote, low0, high0, rounds) == Narrow(quote, low, high, left)
        invariant AnyFails(quote, Probes(quote, low0, high0, rounds)) <==> AnyFails(quote, Probes(quote, low, high, left))
        decreases left
      {
        StepStaysInside(quote, low, high);
        var (l, h) := TernaryStep(quote, low, high);
        FailsInEither(quote, Thirds(low, high), Probes(quote, l, h, left - 1));
        var next := NarrowOnce(low, high);
        if next.Err? {
          return Err;
        }
        low, high := next.value.0, next.value.1;
        left := left - 1;
      }
      return Ok((low, high));
    }

    /** The narrowing loop followed by the dense sweep. */
    method NarrowAndSweep(low: nat, high: nat, rounds: nat, target: nat, best: Option<Plan>)
      returns (r: Result<Option<Plan>>)
      requires Valid() && low <= high <= U128_MAX && target > 0
      modifies this
      ensures Valid()
      ensures r.Ok? ==>
        var (l, h) := Narrow(quote, low, high, rounds);
        l <= h && SweptFrom(quote, DensePoints(l, h, target), best, r.value)
      ensures r.Err? <==> SearchFails(quote, low, high, rounds, target)
    {
      hide SweptFrom, Narrow, DensePoints, AnyFails, Probes;
      NarrowStaysInside(quote, low, high, rounds);
      var bracket := NarrowBracket(low, high, rounds);
      if bracket.Err? {
        return Err;
      }
      var points := CollectDensePoints(bracket.value.0, bracket.value.1, target);
      r := Sweep(points, best);
    }
  }

  /** The `i`-th amount has a plan better than `best` and than every plan before it. */
  ghost predicate FirstWith(quote: Quoter, amounts: seq<nat>, best: Option<Plan>, now: Option<Plan>, i: nat)
    requires i < |amounts|
  {
    && now.Some? && quote(amounts[i]) == Ok(now)
    && (best.Some? ==> best.value.profit < now.value.profit)
    && forall j :: 0 <= j < i && quote(amounts[j]).Ok? && quote(amounts[j]).value.Some? ==>
         quote(amounts[j]).value.value.profit < now.value.profit
  }

  /** Every amount was answered, and `now` is the best of `best` and their plans, the earliest of equals. */
  ghost predicate SweptFrom(quote: Quoter, amounts: seq<nat>, best: Option<Plan>, now: Option<Plan>) {
    && (forall i :: 0 <= i < |amounts| ==>
          && quote(amounts[i]).Ok?
          && (quote(amounts[i]).value.Some? ==>
                now.Some? && now.value.profit >= quote(amounts[i]).value.value.profit))
    && (best.Some? ==> now.Some? && now.value.profit >= best.value.profit)
    && (now == best || exists i: nat :: i < |amounts| && FirstWith(quote, amounts, best, now, i))
  }

  /** One more amount. */
  lemma SweptOne(quote: Quoter, amounts: seq<nat>, best: Option<Plan>, now: Option<Plan>, amount: nat)
    requires SweptFrom(quote, amounts, best, now) && quote(amount).Ok?
    ensures var next := quote(amount).value;
      SweptFrom(quote, amounts + [amount], best, if next.Some? then BetterPlan(now, next.value) else now)
  {
    var all, next := amounts + [amount], quote(amount).value;
    assert all[|amounts|] == amount;
    if next.Some? && BetterPlan(now, next.value) == next {
      assert next == now || FirstWith(quote, all, best, next, |amounts|);
    }
    if now != best {
      var i: nat :| i < |amounts| && FirstWith(quote, amounts, best, now, i);
      assert FirstWith(quote, all, best, now, i);
    }
  }

  /** Two sweeps in a row are one. */
  lemma SweptTwice(quote: Quoter, a: seq<nat>, b: seq<nat>, best: Option<Plan>, mid: Option<Plan>, now: Option<Plan>)
    requires SweptFrom(quote, a, best, mid) && SweptFrom(quote, b, mid, now)
    ensures SweptFrom(quote, a + b, best, now)
  {
    forall i | 0 <= i < |a + b|
      ensures quote((a + b)[i]).Ok?
      ensures quote((a + b)[i]).value.Some? ==> now.Some? && now.value.profit >= quote((a + b)[i]).value.value.profit
    {
      assert (a + b)[i] == if i < |a| then a[i] else b[i - |a|];
    }
    if now != mid {
      var i: nat :| i < |b| && FirstWith(quote, b, mid, now, i);
      FirstOfBoth(quote, a, b, best, mid, now, i);
    } else if mid != best {
      var i: nat :| i < |a| && FirstWith(quote, a, best, mid, i);
      assert FirstWith(quote, a + b, best, mid, i);
    }
  }

  lemma FirstOfBoth(quote: Quoter, a: seq<nat>, b: seq<nat>, best: Option<Plan>, mid: Option<Plan>, now: Option<Plan>, i: nat)
    requires SweptFrom(quote, a, best, mid) && i < |b| && FirstWith(quote, b, mid, now, i)
    ensures |a| + i < |a + b| && FirstWith(quote, a + b, best, now, |a| + i)
  {
    assert (a + b)[|a| + i] == b[i];
    forall j | 0 <= j < |a| + i && quote((a + b)[j]).Ok? && quote((a + b)[j]).value.Some?
      ensures quote((a + b)[j]).value.value.profit < now.value.profit
    {
      assert (a + b)[j] == if j < |a| then a[j] else b[j - |a|];
    }
  }

  // ----- ternary narrowing

  /** Some of these amounts has a failed quote. */
  ghost predicate AnyFails(quote: Quoter, amounts: seq<nat>) {
    exists i :: 0 <= i < |amounts| && quote(amounts[i]).Err?
  }

  lemma NothingFails(quote: Quoter)
    ensures !AnyFails(quote, [])
  {}

  lemma FailsInEither(quote: Quoter, a: seq<nat>, b: seq<nat>)
    ensures AnyFails(quote, a + b) <==> AnyFails(quote, a) || AnyFails(quote, b)
  {
    forall i | 0 <= i < |b| ensures (a + b)[|a| + i] == b[i] {}
    forall i | 0 <= i < |a| ensures (a + b)[i] == a[i] {}
  }

  /** The two inner points a round looks at. */
  function Thirds(low: nat, high: nat): seq<nat>
    requires low <= high
  {
    [low + (high - low) / 3, high - (high - low) / 3]
  }

  function TernaryStep(quote: Quoter, low: nat, high: nat): (nat, nat)
    requires low + 2 < high
  {
    var width := high - low;
    var midLeft, midRight := low + width / 3, high - width / 3;
    if ProfitAt(quote, midLeft) < ProfitAt(quote, midRight) then (midLeft + 1, high)
    else (low, Max(SatSub(midRight, 1), low))
  }

  lemma StepStaysInside(quote: Quoter, low: nat, high: nat)
    requires low + 2 < high
    ensures var (l, h) := TernaryStep(quote, low, high); low <= l <= h <= high
  {}

  function Narrow(quote: Quoter, low: nat, high: nat, rounds: nat): (nat, nat)
    requires low <= high
    decreases rounds
  {
    if rounds == 0 || high - low <= 32 then (low, high)
    else
      var (l, h) := TernaryStep(quote, low, high);
      Narrow(quote, l, h, rounds - 1)
  }

  /** Everything the rounds ask for. */
  function Probes(quote: Quoter, low: nat, high: nat, rounds: nat): seq<nat>
    requires low <= high
    decreases rounds
  {
    if rounds == 0 || high - low <= 32 then []
    else
      var (l, h) := TernaryStep(quote, low, high);
      Thirds(low, high) + Probes(quote, l, h, rounds - 1)
  }

  /** Narrowing and sweeping ask for an amount whose quote fails. */
  ghost predicate SearchFails(quote: Quoter, low: nat, high: nat, rounds: nat, target: nat)
    requires low <= high && target > 0
  {
    || AnyFails(quote, Probes(quote, low, high, rounds))
    || var (l, h) := Narrow(quote, low, high, rounds); AnyFails(quote, DensePoints(l, h, target))
  }

  lemma {:induction false} NarrowStaysInside(quote: Quoter, low: nat, high: nat, rounds: nat)
    requires low <= high
    ensures var (l, h) := Narrow(quote, low, high, rounds); low <= l <= h <= high
    decreases rounds
  {
    if rounds > 0 && high - low > 32 {
      var (l, h) := TernaryStep(quote, low, high);
      NarrowStaysInside(quote, l, h, rounds - 1);
    }
  }

  /** Profit rises strictly up to `peak` and never rises after it. */
  ghost predicate PeaksAt(quote: Quoter, low: nat, high: nat, peak: nat) {
    && low <= peak <= high
    && (forall x, y :: low <= x < y <= peak ==> ProfitAt(quote, x) < ProfitAt(quote, y))
    && (forall x, y :: peak <= x < y <= high ==> ProfitAt(quote, x) >= ProfitAt(quote, y))
  }

  lemma RoundKeepsPeak(quote: Quoter, low: nat, high: nat, peak: nat)
    requires PeaksAt(quote, low, high, peak) && low + 2 < high
    ensures var (l, h) := TernaryStep(quote, low, high); PeaksAt(quote, l, h, peak)
  {
    hide ProfitAt;
  }

  /** Narrowing never loses the peak. */
  lemma {:induction false} NarrowKeepsPeak(quote: Quoter, low: nat, high: nat, peak: nat, rounds: nat)
    requires low <= high && PeaksAt(quote, low, high, peak)
    ensures var (l, h) := Narrow(quote, low, high, rounds); PeaksAt(quote, l, h, peak)
    decreases rounds
  {
    hide PeaksAt, TernaryStep;
    if rounds > 0 && high - low > 32 {
      var (l, h) := TernaryStep(quote, low, high);
      StepStaysInside(quote, low, high);
      RoundKeepsPeak(quote, low, high, peak);
      NarrowKeepsPeak(quote, l, h, peak, rounds - 1);
    }
  }

  /** Profit rises, perhaps with plateaus, to a peak above everything before it, and never rises after it. */
  ghost predicate HillAt(quote: Quoter, low: nat, high: nat, peak: nat) {
    && low <= peak <= high
    && (forall x, y :: low <= x < y <= peak ==> ProfitAt(quote, x) <= ProfitAt(quote, y))
    && (forall x :: low <= x < peak ==> ProfitAt(quote, x) < ProfitAt(quote, peak))
    && (forall x, y :: peak <= x < y <= high ==> ProfitAt(quote, x) >= ProfitAt(quote, y))
  }

  /** Both inner points lie before the peak and pay the same. */
  predicate TiesBelow(quote: Quoter, low: nat, high: nat, peak: nat)
    requires low <= high
  {
    var midLeft, midRight := Thirds(low, high)[0], Thirds(low, high)[1];
    midRight <= peak && ProfitAt(quote, midLeft) == ProfitAt(quote, midRight)
  }

  /** One round loses the peak of a hill exactly on such a tie. */
  lemma RoundKeepsPeakIff(quote: Quoter, low: nat, high: nat, peak: nat)
    requires HillAt(quote, low, high, peak) && low + 2 < high
    ensures var (l, h) := TernaryStep(quote, low, high);
      (l <= peak <= h <==> !TiesBelow(quote, low, high, peak)) && (l <= peak <= h ==> HillAt(quote, l, h, peak))
  {
    hide ProfitAt;
  }

  predicate MeetsTie(quote: Quoter, low: nat, high: nat, peak: nat, rounds: nat)
    requires low <= high
    decreases rounds
  {
    rounds > 0 && high - low > 32 &&
    (TiesBelow(quote, low, high, peak) ||
     var (l, h) := TernaryStep(quote, low, high); MeetsTie(quote, l, h, peak, rounds - 1))
  }

  lemma NoRound(quote: Quoter, low: nat, high: nat, peak: nat, rounds: nat)
    requires HillAt(quote, low, high, peak) && (rounds == 0 || high - low <= 32)
    ensures low <= peak <= high && Narrow(quote, low, high, rounds) == (low, high)
    ensures !MeetsTie(quote, low, high, peak, rounds)
  {
    hide ProfitAt, TernaryStep;
  }

  lemma OneRound(quote: Quoter, low: nat, high: nat, peak: nat, rounds: nat)
    requires rounds > 0 && low <= high && high - low > 32
    ensures var (l, h) := TernaryStep(quote, low, high);
      && l <= h
      && Narrow(quote, low, high, rounds) == Narrow(quote, l, h, rounds - 1)
      && (MeetsTie(quote, low, high, peak, rounds) <==>
            TiesBelow(quote, low, high, peak) || MeetsTie(quote, l, h, peak, rounds - 1))
  {
    StepStaysInside(quote, low, high);
    hide TernaryStep, TiesBelow;
  }

  /** Narrowing keeps the peak of a hill if and only if no round meets a tie below it. */
  lemma {:induction false} NarrowKeepsPeakIff(quote: Quoter, low: nat, high: nat, peak: nat, rounds: nat)
    requires HillAt(quote, low, high, peak)
    ensures var (l, h) := Narrow(quote, low, high, rounds);
      (l <= peak <= h <==> !MeetsTie(quote, low, high, peak, rounds)) && (l <= peak <= h ==> HillAt(quote, l, h, peak))
    decreases rounds
  {
    hide HillAt, TiesBelow, TernaryStep, Narrow, MeetsTie;
    if rounds == 0 || high - low <= 32 {
      NoRound(quote, low, high, peak, rounds);
    } else {
      var (l, h) := TernaryStep(quote, low, high);
      StepStaysInside(quote, low, high);
      OneRound(quote, low, high, peak, rounds);
      RoundKeepsPeakIff(quote, low, high, peak);
      if TiesBelow(quote, low, high, peak) {
        NarrowStaysInside(quote, l, h, rounds - 1);
      } else {
        NarrowKeepsPeakIff(quote, l, h, peak, rounds - 1);
      }
    }
  }

  lemma StrictRise(quote: Quoter, low: nat, high: nat, peak: nat)
    requires low <= high && PeaksAt(quote, low, high, peak)
    ensures HillAt(quote, low, high, peak)
    ensures high - low > 32 ==> !TiesBelow(quote, low, high, peak)
  {
    hide ProfitAt;
  }

  /** A strict rise is a hill without ties. */
  lemma {:induction false} StrictRiseNeverTies(quote: Quoter, low: nat, high: nat, peak: nat, rounds: nat)
    requires low <= high && PeaksAt(quote, low, high, peak)
    ensures HillAt(quote, low, high, peak) && !MeetsTie(quote, low, high, peak, rounds)
    decreases rounds
  {
    hide PeaksAt, HillAt, TiesBelow, TernaryStep;
    StrictRise(quote, low, high, peak);
    if rounds > 0 && high - low > 32 {
      var (l, h) := TernaryStep(quote, low, high);
      StepStaysInside(quote, low, high);
      RoundKeepsPeak(quote, low, high, peak);
      StrictRiseNeverTies(quote, l, h, peak, rounds - 1);
    }
  }

  /** What is left of a bracket's width: every round takes off a third and one more. */
  function WidthAfter(width: nat, rounds: nat): nat {
    if rounds == 0 || width <= 32 then width else WidthAfter(width - width / 3 - 1, rounds - 1)
  }

  lemma StepWidth(quote: Quoter, low: nat, high: nat)
    requires low + 2 < high
    ensures var (l, h) := TernaryStep(quote, low, high); l <= h && h - l == (high - low) - (high - low) / 3 - 1
  {
    hide ProfitAt;
  }

  /** The width of the narrowed bracket does not depend on the profits. */
  lemma {:induction false} NarrowWidth(quote: Quoter, low: nat, high: nat, rounds: nat)
    requires low <= high
    ensures var (l, h) := Narrow(quote, low, high, rounds); l <= h && h - l == WidthAfter(high - low, rounds)
    decreases rounds
  {
    if rounds > 0 && high - low > 32 {
      hide TernaryStep;
      StepWidth(quote, low, high);
      var (l, h) := TernaryStep(quote, low, high);
      NarrowWidth(quote, l, h, rounds - 1);
    }
  }

  /** The widest bracket that is at most `last` wide after so many rounds. */
  function WidestFor(last: nat, rounds: nat): nat {
    if rounds == 0 then last else (3 * WidestFor(last, rounds - 1) + 3) / 2
  }

  lemma {:induction false} WidthAfterIff(width: nat, rounds: nat, last: nat)
    requires last >= 32
    ensures WidthAfter(width, rounds) <= last <==> width <= WidestFor(last, rounds)
    ensures WidestFor(last, rounds) >= last
  {
    if rounds > 0 {
      WidthAfterIff(width, rounds - 1, last);
      if width > 32 {
        WidthAfterIff(width - width / 3 - 1, rounds - 1, last);
      }
    }
  }

  /** It grows by a half with every round: the powers of one and a half bound it from both sides. */
  lemma {:induction false} WidestBounds(last: nat, rounds: nat)
    ensures (last + 2) * Pow(3, rounds) <= (WidestFor(last, rounds) + 2) * Pow(2, rounds)
    ensures (WidestFor(last, rounds) + 3) * Pow(2, rounds) <= (last + 3) * Pow(3, rounds)
  {
    if rounds > 0 {
      WidestBounds(last, rounds - 1);
      var w, w', p2, p3 := WidestFor(last, rounds - 1), WidestFor(last, rounds), Pow(2, rounds - 1), Pow(3, rounds - 1);
      AtLeastHalfMore(last + 2, w + 2, w' + 2, p2, p3);
      AtMostHalfMore(w + 3, w' + 3, last + 3, p2, p3);
    }
  }

  lemma AtLeastHalfMore(a: nat, v: nat, w: nat, p2: nat, p3: nat)
    requires a * p3 <= v * p2 && 3 * v <= 2 * w
    ensures a * (3 * p3) <= w * (2 * p2)
  {
    MulMono(3 * v, 2 * w, p2);
    assert a * (3 * p3) == 3 * (a * p3);
    assert 3 * (v * p2) == (3 * v) * p2;
    assert w * (2 * p2) == (2 * w) * p2;
  }

  lemma AtMostHalfMore(v: nat, w: nat, a: nat, p2: nat, p3: nat)
    requires v * p2 <= a * p3 && 2 * w <= 3 * v
    ensures w * (2 * p2) <= a * (3 * p3)
  {
    MulMono(2 * w, 3 * v, p2);
    assert a * (3 * p3) == 3 * (a * p3);
    assert 3 * (v * p2) == (3 * v) * p2;
    assert w * (2 * p2) == (2 * w) * p2;
  }

  // ----- the dense tail

  function Range(low: nat, high: int): (r: seq<nat>)
    requires low <= high + 1
    ensures forall x: nat :: x in r <==> low <= x <= high
    decreases high + 1 - low
  {
    if low > high then [] else Range(low, high - 1) + [high]
  }

  /** `current`, `current + step`, ... up to `high`, stopping at saturation. */
  function Stride(current: nat, high: nat, step: nat): (r: seq<nat>)
    requires step > 0
    ensures current <= high ==> |r| > 0
    decreases high + 1 - current
  {
    if current > high then []
    else
      var next := SatAdd(current, step);
      [current] + (if next <= current then [] else Stride(next, high, step))
  }

  lemma {:induction false} StrideMembers(current: nat, high: nat, step: nat)
    requires step > 0
    ensures forall x :: x in Stride(current, high, step) ==>
      current <= x <= high && (x == current || x >= Min(current + step, U128_MAX))
    ensures current <= high ==> Stride(current, high, step)[0] == current
    decreases high + 1 - current
  {
    if current <= high && SatAdd(current, step) > current {
      StrideMembers(SatAdd(current, step), high, step);
    }
  }

  /** `dense_points` */
  function DensePoints(low: nat, high: nat, target: nat): (r: seq<nat>)
    requires target > 0
  {
    if low > high then []
    else if high - low <= target then Range(low, high)
    else
      var out := Stride(low, high, Max((high - low) / target, 1));
      if out[|out| - 1] != high then out + [high] else out
  }

  method CollectDensePoints(low: nat, high: nat, target: nat) returns (out: seq<nat>)
    requires target > 0
    ensures out == DensePoints(low, high, target)
  {
    if low > high {
      return [];
    }
    if high - low <= target {
      return Range(low, high);
    }
    out := CollectStride(low, high, Max((high - low) / target, 1));
    if out[|out| - 1] != high {
      out := out + [high];
    }
  }

  lemma StrideStep(current: nat, high: nat, step: nat)
    requires step > 0 && current <= high
    ensures Stride(current, high, step) ==
            [current] + (if SatAdd(current, step) <= current then [] else Stride(SatAdd(current, step), high, step))
  {}

  method CollectStride(low: nat, high: nat, step: nat) returns (out: seq<nat>)
    requires step > 0
    ensures out == Stride(low, high, step)
  {
    out := [];
    var current := low;
    while current <= high
      invariant out + Stride(current, high, step) == Stride(low, high, step)
      decreases high + 1 - current
    {
      hide Stride;
      StrideStep(current, high, step);
      var next := SatAdd(current, step);
      ghost var rest: seq<nat> := if next <= current then [] else Stride(next, high, step);
      assert out + ([current] + rest) == (out + [current]) + rest;
      out := out + [current];
      if next <= current {
        return;
      }
      current := next;
    }
    assert out + [] == out;
  }

  lemma {:induction false} UnitStrideCovers(current: nat, high: nat)
    requires high <= U128_MAX
    ensures forall x: nat :: current <= x <= high ==> x in Stride(current, high, 1)
    decreases high + 1 - current
  {
    if current < high {
      UnitStrideCovers(current + 1, high);
    }
  }

  lemma StepSize(width: nat, target: nat)
    requires target > 0
    ensures target < width < 2 * target ==> width / target == 1
    ensures width >= 2 * target ==> width / target >= 2
  {
    assert width == width / target * target + width % target;
    var q := width / target;
    if q >= 2 {
      MulMono(2, q, target);
    } else {
      MulMono(q, 1, target);
    }
  }

  lemma DenseMembers(low: nat, high: nat, target: nat)
    requires target > 0 && low <= high <= U128_MAX
    ensures forall x :: x in DensePoints(low, high, target) ==> low <= x <= high
    ensures high - low > target ==>
      var step := Max((high - low) / target, 1);
      && (forall x :: x in Stride(low, high, step) ==> x in DensePoints(low, high, target))
      && (forall x :: x in DensePoints(low, high, target) ==> x == low || x >= Min(low + step, U128_MAX) || x == high)
  {
    if high - low > target {
      var step := Max((high - low) / target, 1);
      StrideMembers(low, high, step);
      hide Stride;
      var out := Stride(low, high, step);
      assert forall x :: x in out + [high] <==> x in out || x == high;
    }
  }

  /** The dense pass looks at every amount of the bracket exactly when the bracket is narrower
      than twice the target count. */
  lemma DenseCoversIff(low: nat, high: nat, target: nat)
    requires target > 0 && low <= high <= U128_MAX
    ensures forall x :: x in DensePoints(low, high, target) ==> low <= x <= high
    ensures (forall x: nat :: low <= x <= high ==> x in DensePoints(low, high, target)) <==> high - low < 2 * target
    ensures high - low >= 2 * target ==> low + 1 !in DensePoints(low, high, target)
  {
    DenseMembers(low, high, target);
    StepSize(high - low, target);
    if high - low > target {
      hide Stride, DensePoints;
      if high - low < 2 * target {
        UnitStrideCovers(low, high);
      } else {
        assert low + 1 !in DensePoints(low, high, target);
      }
    }
  }

  ghost predicate Strides(s: seq<nat>, low: nat, high: nat, step: nat) {
    && s != [] && s[0] == low && s[|s| - 1] <= high < s[|s| - 1] + step
    && forall i :: 0 < i < |s| ==> s[i - 1] < s[i] <= high && s[i] == SatAdd(s[i - 1], step)
  }

  /** Every gap is the step, but for one cut off at saturation, and the last point is less than a step away. */
  lemma {:induction false} StrideSpacing(current: nat, high: nat, step: nat)
    requires step > 0 && current <= high <= U128_MAX
    ensures Strides(Stride(current, high, step), current, high, step)
    decreases high + 1 - current
  {
    var next := SatAdd(current, step);
    if current < next <= high {
      StrideSpacing(next, high, step);
      var rest := Stride(next, high, step);
      assert Stride(current, high, step) == [current] + rest;
      hide Stride;
      StridesFrom(current, rest, high, step);
    } else {
      assert Stride(current, high, step) == [current];
    }
  }

  lemma StridesFrom(current: nat, rest: seq<nat>, high: nat, step: nat)
    requires current < SatAdd(current, step) <= high && Strides(rest, SatAdd(current, step), high, step)
    ensures Strides([current] + rest, current, high, step)
  {
    var s := [current] + rest;
    forall i | 0 < i < |s| ensures s[i - 1] < s[i] <= high && s[i] == SatAdd(s[i - 1], step) {
      if i > 1 {
        assert rest[i - 2] < rest[i - 1];
      }
    }
  }

  /** The distance between dense points. */
  function DenseStep(width: nat, target: nat): nat
    requires target > 0
  {
    if width <= target then 1 else width / target
  }

  /** Ascending from `low` to `high`, every gap but the last exactly the step. */
  ghost predicate EvenlySpaced(s: seq<nat>, low: nat, high: nat, step: nat) {
    && s != [] && s[0] == low && s[|s| - 1] == high
    && (forall i :: 0 < i < |s| ==> s[i - 1] < s[i] <= s[i - 1] + step)
    && (forall i :: 0 < i < |s| - 1 ==> s[i] == s[i - 1] + step)
  }

  lemma DenseSpacing(low: nat, high: nat, target: nat)
    requires target > 0 && low <= high <= U128_MAX
    ensures EvenlySpaced(DensePoints(low, high, target), low, high, DenseStep(high - low, target))
  {
    hide EvenlySpaced, Stride, Range;
    if high - low <= target {
      RangeSpacing(low, high);
    } else {
      hide DensePoints, DenseStep;
      StepIsShare(high - low, target);
      StrideSpacing(low, high, DenseStep(high - low, target));
      DenseStrides(low, high, target);
      StridesToHigh(Stride(low, high, DenseStep(high - low, target)), low, high, DenseStep(high - low, target));
    }
  }

  lemma DenseStrides(low: nat, high: nat, target: nat)
    requires target > 0 && low <= high <= U128_MAX && high - low > target && DenseStep(high - low, target) > 0
    ensures var out := Stride(low, high, DenseStep(high - low, target));
      out != [] && DensePoints(low, high, target) == if out[|out| - 1] != high then out + [high] else out
  {
    hide Stride;
    StepIsShare(high - low, target);
  }

  lemma StepIsShare(width: nat, target: nat)
    requires 0 < target < width
    ensures DenseStep(width, target) == Max(width / target, 1) >= 1
  {
    StepSize(width, target);
  }

  lemma StridesToHigh(out: seq<nat>, low: nat, high: nat, step: nat)
    requires Strides(out, low, high, step) && high <= U128_MAX
    ensures EvenlySpaced(if out[|out| - 1] != high then out + [high] else out, low, high, step)
  {
    forall i | 0 < i < |out| - 1 ensures out[i] == out[i - 1] + step {
      assert out[i] < out[i + 1] <= high;
    }
    if out[|out| - 1] != high && |out| > 1 {
      assert out[|out| - 1] == SatAdd(out[|out| - 2], step);
    }
  }

  lemma RangeSpacing(low: nat, high: nat)
    requires low <= high
    ensures EvenlySpaced(Range(low, high), low, high, 1)
  {
    RangeAt(low, high);
  }

  lemma {:induction false} RangeAt(low: nat, high: int)
    requires low <= high + 1
    ensures |Range(low, high)| == high + 1 - low
    ensures forall i :: 0 <= i < |Range(low, high)| ==> Range(low, high)[i] == low + i
    decreases high + 1 - low
  {
    if low <= high {
      RangeAt(low, high - 1);
    }
  }

  // ----- the whole pass

  /** If profit climbs a hill, no round meets a tie below its peak, and the narrowed bracket is
      narrower than twice the target count, the best plan after the dense sweep is at least
      as good as every amount of the first bracket. */
  lemma SweepFindsPeak(quote: Quoter, low: nat, high: nat, peak: nat, rounds: nat, target: nat,
                       best: Option<Plan>, now: Option<Plan>, amount: nat)
    requires target > 0 && high <= U128_MAX && HillAt(quote, low, high, peak) && !MeetsTie(quote, low, high, peak, rounds)
    requires var (l, h) := Narrow(quote, low, high, rounds);
      l <= h && h - l < 2 * target && SweptFrom(quote, DensePoints(l, h, target), best, now)
    requires low <= amount <= high && quote(amount).Ok? && quote(amount).value.Some?
    requires quote(amount).value.value.profit > I128_MIN
    ensures now.Some? && now.value.profit >= ProfitAt(quote, peak) >= ProfitAt(quote, amount)
  {
    hide HillAt, SweptFrom, Narrow, DensePoints, ProfitAt, MeetsTie;
    var (l, h) := Narrow(quote, low, high, rounds);
    NarrowStaysInside(quote, low, high, rounds);
    NarrowKeepsPeakIff(quote, low, high, peak, rounds);
    DenseCoversIff(l, h, target);
    SweptAnswered(quote, DensePoints(l, h, target), best, now, peak);
    PeakIsMaximal(quote, low, high, peak, amount);
    SweptIncludes(quote, DensePoints(l, h, target), best, now, peak);
  }

  /** The peak of a hill is its maximum; if any amount has a plan, so has the peak. */
  lemma PeakIsMaximal(quote: Quoter, low: nat, high: nat, peak: nat, amount: nat)
    requires HillAt(quote, low, high, peak) && low <= amount <= high
    requires quote(amount).Ok? && quote(amount).value.Some? && quote(amount).value.value.profit > I128_MIN
    requires quote(peak).Ok?
    ensures quote(peak).value.Some? && ProfitAt(quote, amount) <= ProfitAt(quote, peak)
  {
    assert ProfitAt(quote, amount) <= ProfitAt(quote, peak);
  }

  lemma SweptAnswered(quote: Quoter, amounts: seq<nat>, best: Option<Plan>, now: Option<Plan>, amount: nat)
    requires SweptFrom(quote, amounts, best, now) && amount in amounts
    ensures quote(amount).Ok?
  {
    var i :| 0 <= i < |amounts| && amounts[i] == amount;
  }

  lemma SweptIncludes(quote: Quoter, amounts: seq<nat>, best: Option<Plan>, now: Option<Plan>, amount: nat)
    requires SweptFrom(quote, amounts, best, now) && amount in amounts
    requires quote(amount).Ok? && quote(amount).value.Some?
    ensures now.Some? && now.value.profit >= ProfitAt(quote, amount)
  {
    var i :| 0 <= i < |amounts| && amounts[i] == amount;
  }

  /** The width up to which 32 rounds and 64 points leave nothing out. */
  const WIDEST_BRACKET: nat := WidestFor(127, 32)

  /** The main search: the dense points look at every amount of the narrowed bracket if and only if
      the first bracket is at most that wide. */
  lemma MainSearchCoversIff(quote: Quoter, low: nat, high: nat)
    requires low <= high <= U128_MAX
    ensures var (l, h) := Narrow(quote, low, high, 32);
      && l <= h
      && (h - l < 2 * 64 <==> high - low <= WIDEST_BRACKET)
      && ((forall x: nat :: l <= x <= h ==> x in DensePoints(l, h, 64)) <==> high - low <= WIDEST_BRACKET)
  {
    hide Narrow, DensePoints, WidthAfter, WidestFor;
    NarrowWidth(quote, low, high, 32);
    NarrowStaysInside(quote, low, high, 32);
    WidthAfterIff(high - low, 32, 127);
    var (l, h) := Narrow(quote, low, high, 32);
    DenseCoversIff(l, h, 64);
  }

  /** A profile that jumps to its peak at 1 and then falls. */
  function EarlyPeak(): Quoter {
    (a: nat) => Ok(Some(Plan(a, if a == 0 then 1 else 100 - a)))
  }

  lemma EarlyPeakProfit(a: nat)
    ensures ProfitAt(EarlyPeak(), a) == if a == 0 then 1 else 100 - a
  {}

  /** The fast-sized search asks for 16 points: at width exactly 32 it steps by two and can miss
      the peak, although the narrowing loop stops there. */
  lemma FastSweepMissesAtWidth32()
    ensures PeaksAt(EarlyPeak(), 0, 32, 1)
    ensures Narrow(EarlyPeak(), 0, 32, 12) == (0, 32)
    ensures forall x :: x in DensePoints(0, 32, 16) ==> ProfitAt(EarlyPeak(), x) < ProfitAt(EarlyPeak(), 1)
  {
    hide DensePoints, EarlyPeak, ProfitAt, TernaryStep;
    forall a: nat ensures ProfitAt(EarlyPeak(), a) == if a == 0 then 1 else 100 - a {
      EarlyPeakProfit(a);
    }
    DenseCoversIff(0, 32, 16);
  }

  /** No plan below 90, then a peak at 95. */
  function LatePeak(): Quoter {
    (a: nat) => if a < 90 then Ok(None) else Ok(Some(Plan(a, if a <= 95 then a else 190 - a)))
  }

  /** Such ties are ordinary: on a plateau of amounts without plans before the peak, the first round
      already throws the peak away. */
  lemma PlateauLosesPeak(rounds: nat)
    requires rounds > 0
    ensures HillAt(LatePeak(), 0, 99, 95) && MeetsTie(LatePeak(), 0, 99, 95, rounds)
    ensures Narrow(LatePeak(), 0, 99, rounds).1 < 90
  {
    LatePeakIsHill();
    LatePeakTies();
    hide LatePeak, HillAt, TiesBelow, TernaryStep, ProfitAt;
    NarrowStaysInside(LatePeak(), 0, 65, rounds - 1);
  }

  lemma LatePeakIsHill()
    ensures HillAt(LatePeak(), 0, 99, 95)
  {}

  lemma LatePeakTies()
    ensures TiesBelow(LatePeak(), 0, 99, 95) && TernaryStep(LatePeak(), 0, 99) == (0, 65)
  {
    assert Thirds(0, 99) == [33, 66];
  }

  // ----- brackets

  /** How many of the sorted amounts lie below `x`: where a binary search finds or inserts it. */
  function PositionOf(ordered: seq<nat>, x: nat): (pos: nat)
    ensures pos <= |ordered|
    ensures forall i :: 0 <= i < pos ==> ordered[i] < x
    ensures pos < |ordered| ==> ordered[pos] >= x
    decreases |ordered|
  {
    if ordered == [] || ordered[0] >= x then 0 else 1 + PositionOf(ordered[1..], x)
  }

  /** The bracket around a seed: its neighbours on the ladder, or the ends of the search range. */
  function SeedBracket(ordered: seq<nat>, center: nat, minAmount: nat, maxAmount: nat): (nat, nat)
    requires ordered != []
  {
    var pos := Min(PositionOf(ordered, center), |ordered| - 1);
    (if pos == 0 then minAmount else ordered[pos - 1],
     Max(if pos + 1 < |ordered| then ordered[pos + 1] else maxAmount, center))
  }

  lemma SeedBracketHoldsCenter(ordered: seq<nat>, center: nat, minAmount: nat, maxAmount: nat)
    requires ordered != [] && minAmount <= center <= maxAmount
    requires forall i, j :: 0 <= i < j < |ordered| ==> ordered[i] < ordered[j]
    requires forall i :: 0 <= i < |ordered| ==> minAmount <= ordered[i] <= maxAmount
    ensures var (low, high) := SeedBracket(ordered, center, minAmount, maxAmount);
      minAmount <= low <= center <= high <= maxAmount
  {}

  /** A seed gets the neighbours of its place on the ladder, which is its own, that of the first larger amount,
      or the last. */
  lemma SeedBracketIsNeighbours(ordered: seq<nat>, center: nat, i: nat, minAmount: nat, maxAmount: nat)
    requires i < |ordered| && forall i, j :: 0 <= i < j < |ordered| ==> ordered[i] < ordered[j]
    requires forall i :: 0 <= i < |ordered| ==> minAmount <= ordered[i] <= maxAmount
    requires center <= maxAmount && (forall j :: 0 <= j < i ==> ordered[j] < center) && (ordered[i] >= center || i == |ordered| - 1)
    ensures SeedBracket(ordered, center, minAmount, maxAmount) ==
            (if i == 0 then minAmount else ordered[i - 1], if i == |ordered| - 1 then maxAmount else ordered[i + 1])
  {
    var pos := Min(PositionOf(ordered, center), |ordered| - 1);
    assert pos == i;
  }

  /** The bracket of the fast-sized search: half the best amount to either side. */
  function FastBracket(center: nat, minAmount: nat, maxAmount: nat): (nat, nat) {
    var low := Min(Max(SatSub(center, center / 2), minAmount), maxAmount);
    var high := Min(Max(SatAdd(center, center / 2), SatAdd(center, 1)), maxAmount);
    if low >= high then (Min(minAmount, center), Max(maxAmount, center)) else (low, high)
  }

  lemma FastBracketHoldsCenter(center: nat, minAmount: nat, maxAmount: nat)
    requires minAmount <= center <= maxAmount <= U128_MAX
    ensures var (low, high) := FastBracket(center, minAmount, maxAmount);
      minAmount <= low <= center <= high <= maxAmount
  {}

  /** It is wide enough for every amount in range that is at most half the best one away, and for one more unit,
      and for no others unless that leaves no amount but the best. */
  lemma FastBracketIsHalf(center: nat, minAmount: nat, maxAmount: nat, x: nat)
    requires minAmount <= center <= maxAmount <= U128_MAX && minAmount <= x <= maxAmount
    ensures var (low, high) := FastBracket(center, minAmount, maxAmount);
      && ((2 * x >= center && 2 * x <= 3 * center) || x == center + 1 ==> low <= x <= high)
      && (low <= x <= high && (center >= 2 || center < maxAmount) ==>
            2 * x >= center && (2 * x <= 3 * center || x == center + 1))
  {}

  /** The search around a seed asks for an amount whose quote fails. */
  ghost predicate SeedFails(quote: Quoter, ordered: seq<nat>, center: nat, minAmount: nat, maxAmount: nat)
    requires ordered != []
  {
    var (low, high) := SeedBracket(ordered, center, minAmount, maxAmount);
    low <= high && SearchFails(quote, low, high, 32, 64)
  }

  /** The dense points of the narrowed bracket. */
  function SeedPoints(quote: Quoter, low: nat, high: nat): seq<nat>
    requires low <= high
  {
    var (l, h) := Narrow(quote, low, high, 32);
    DensePoints(l, h, 64)
  }

  lemma SweptTells(quote: Quoter, a: seq<nat>, b: seq<nat>, best: Option<Plan>, now: Option<Plan>)
    requires SweptFrom(quote, a + b, best, now)
    ensures forall amount :: amount in a && ProfitAt(quote, amount) > I128_MIN ==>
      now.Some? && now.value.profit >= ProfitAt(quote, amount)
  {
    forall amount | amount in a && ProfitAt(quote, amount) > I128_MIN
      ensures now.Some? && now.value.profit >= ProfitAt(quote, amount)
    {
      var i :| 0 <= i < |a| && a[i] == amount;
      assert (a + b)[i] == amount;
    }
  }

  /** One seed of the main search: refinement points, 32 narrowing rounds, 64 dense points.
      When the profit on the bracket is a hill, no round meets a tie below its peak, and the
      bracket is below the bound, nothing on the bracket beats the result. The result is the plan so
      far or the plan of an amount that was looked at, the earliest of the most profitable ones. It
      fails exactly when the quote of an amount it asks for fails. */
  method SearchSeed(e: Evaluator, ordered: seq<nat>, center: nat, minAmount: nat, maxAmount: nat,
                    refinement: seq<nat>, best: Option<Plan>)
    returns (r: Result<Option<Plan>>)
    requires e.Valid() && ordered != [] && minAmount <= center <= maxAmount <= U128_MAX
    requires forall i, j :: 0 <= i < j < |ordered| ==> ordered[i] < ordered[j]
    requires forall i :: 0 <= i < |ordered| ==> minAmount <= ordered[i] <= maxAmount
    modifies e
    ensures e.Valid()
    ensures r.Ok? ==> var (low, high) := SeedBracket(ordered, center, minAmount, maxAmount);
      low <= high && SweptFrom(e.quote, refinement + SeedPoints(e.quote, low, high), best, r.value)
    ensures r.Ok? ==> forall amount :: amount in refinement && ProfitAt(e.quote, amount) > I128_MIN ==>
      r.value.Some? && r.value.value.profit >= ProfitAt(e.quote, amount)
    ensures r.Err? <==> AnyFails(e.quote, refinement) || SeedFails(e.quote, ordered, center, minAmount, maxAmount)
    ensures r.Ok? ==> var (low, high) := SeedBracket(ordered, center, minAmount, maxAmount);
      forall peak, amount ::
        && HillAt(e.quote, low, high, peak) && !MeetsTie(e.quote, low, high, peak, 32) && low <= amount <= high
        && high - low <= WIDEST_BRACKET
        && ProfitAt(e.quote, amount) > I128_MIN ==>
        r.value.Some? && r.value.value.profit >= ProfitAt(e.quote, amount)
  {
    hide SeedBracket, HillAt, MeetsTie, Narrow, DensePoints, ProfitAt, AnyFails, SearchFails;
    SeedBracketHoldsCenter(ordered, center, minAmount, maxAmount);
    var (low, high) := SeedBracket(ordered, center, minAmount, maxAmount);
    var refined := e.Sweep(refinement, best);
    if refined.Err? {
      return Err;
    }
    r := e.NarrowAndSweep(low, high, 32, 64, refined.value);
    if r.Ok? {
      SweptTwice(e.quote, refinement, SeedPoints(e.quote, low, high), best, refined.value, r.value);
      SweptTells(e.quote, refinement, SeedPoints(e.quote, low, high), best, r.value);
      forall peak, amount |
        && HillAt(e.quote, low, high, peak) && !MeetsTie(e.quote, low, high, peak, 32) && low <= amount <= high
        && high - low <= WIDEST_BRACKET
        && ProfitAt(e.quote, amount) > I128_MIN
        ensures r.value.Some? && r.value.value.profit >= ProfitAt(e.quote, amount)
      {
        MainSearchCoversIff(e.quote, low, high);
        HasPlan(e.quote, amount);
        SweepFindsPeak(e.quote, low, high, peak, 32, 64, refined.value, r.value, amount);
      }
    }
  }

  lemma HasPlan(quote: Quoter, amount: nat)
    requires ProfitAt(quote, amount) > I128_MIN
    ensures quote(amount).Ok? && quote(amount).value.Some? && quote(amount).value.value.profit > I128_MIN
  {}

  // ----- rescaling the splits of a hop

  /** What a split before the last one gets of the new total. */
  function ShareOf(amount: nat, originalTotal: nat, newTotal: nat): nat
    requires originalTotal > 0
  {
    SatMul(newTotal, amount) / originalTotal
  }

  /** What the splits before the last one get of the new total. */
  function ScaledHead(amounts: seq<nat>, originalTotal: nat, newTotal: nat): seq<nat>
    requires originalTotal > 0
  {
    seq(if amounts == [] then 0 else |amounts| - 1,
        i requires 0 <= i < |amounts| - 1 => ShareOf(amounts[i], originalTotal, newTotal))
  }

  lemma ShareCount(amounts: seq<nat>, originalTotal: nat, newTotal: nat)
    requires originalTotal > 0 && amounts != []
    ensures |ScaledHead(amounts, originalTotal, newTotal)| == |amounts| - 1
  {}

  lemma ShareAt(amounts: seq<nat>, originalTotal: nat, newTotal: nat, i: nat)
    requires originalTotal > 0 && i + 1 < |amounts|
    ensures var shares := ScaledHead(amounts, originalTotal, newTotal);
      |shares| == |amounts| - 1 && shares[i] == ShareOf(amounts[i], originalTotal, newTotal)
  {}

  /** A share is the proportional one, rounded down. */
  lemma ShareIsProportional(amounts: seq<nat>, originalTotal: nat, newTotal: nat, i: nat)
    requires originalTotal > 0 && i + 1 < |amounts| && newTotal * amounts[i] <= U128_MAX
    ensures |SplitParts(amounts, originalTotal, newTotal)| == |amounts|
    ensures var share := SplitParts(amounts, originalTotal, newTotal)[i];
      share * originalTotal <= newTotal * amounts[i] < (share + 1) * originalTotal
  {
    ShareAt(amounts, originalTotal, newTotal, i);
    DivBounds(newTotal * amounts[i], originalTotal);
  }

  /** The shares, and for the last split what they leave of the new total. */
  function SplitParts(amounts: seq<nat>, originalTotal: nat, newTotal: nat): seq<nat>
    requires originalTotal > 0
  {
    var shares := ScaledHead(amounts, originalTotal, newTotal);
    shares + [SatSub(newTotal, Sum(shares))]
  }

  lemma PartsSum(amounts: seq<nat>, originalTotal: nat, newTotal: nat)
    requires originalTotal > 0
    ensures Sum(SplitParts(amounts, originalTotal, newTotal)) == Max(newTotal, Sum(ScaledHead(amounts, originalTotal, newTotal)))
  {
    var shares := ScaledHead(amounts, originalTotal, newTotal);
    hide ScaledHead;
    SumPush(shares, SatSub(newTotal, Sum(shares)));
  }

  function WithoutZeros(xs: seq<nat>): seq<nat> {
    if xs == [] then []
    else
      var kept := WithoutZeros(xs[..|xs| - 1]);
      if xs[|xs| - 1] > 0 then kept + [xs[|xs| - 1]] else kept
  }

  /** Nothing but zeros is dropped. */
  lemma {:induction false} ZerosDropped(xs: seq<nat>)
    ensures 0 !in WithoutZeros(xs) && |WithoutZeros(xs)| <= |xs|
    ensures 0 !in xs ==> WithoutZeros(xs) == xs
  {
    if xs != [] {
      var init, last := xs[..|xs| - 1], xs[|xs| - 1];
      assert xs == init + [last];
      ZerosDropped(init);
    }
  }

  lemma {:induction false} OthersStay(xs: seq<nat>, x: nat)
    requires x > 0
    ensures multiset(WithoutZeros(xs))[x] == multiset(xs)[x]
  {
    if xs != [] {
      var init, last := xs[..|xs| - 1], xs[|xs| - 1];
      assert xs == init + [last];
      OthersStay(init, x);
    }
  }

  lemma {:induction false} ZerosAddNothing(xs: seq<nat>)
    ensures Sum(WithoutZeros(xs)) == Sum(xs)
  {
    if xs != [] {
      var n := |xs| - 1;
      ZerosAddNothing(xs[..n]);
      SumPush(WithoutZeros(xs[..n]), xs[n]);
    }
  }

  /** Rescaled to the total they came from, the splits are as they were. */
  lemma SameTotalSameSplits(amounts: seq<nat>, total: nat)
    requires amounts != [] && Sum(amounts) == total > 0 && 0 !in amounts
    requires total * total <= U128_MAX
    ensures WithoutZeros(SplitParts(amounts, total, total)) == amounts
  {
    var n := |amounts| - 1;
    forall i | 0 <= i < n ensures ScaledHead(amounts, total, total)[i] == amounts[i] {
      SumBound(amounts, i);
      MulMono(amounts[i], total, total);
      WholeShare(total, amounts[i]);
    }
    assert ScaledHead(amounts, total, total) == amounts[..n];
    assert amounts[..n] + [amounts[n]] == amounts;
    ZerosDropped(amounts);
  }

  lemma WholeShare(total: nat, amount: nat)
    requires total > 0 && amount * total <= U128_MAX
    ensures SatMul(total, amount) / total == amount
  {
    assert total * amount == amount * total;
    QuotientMono(amount, amount * total / total, amount * total, amount * total, total) by {
      DivBounds(amount * total, total);
    }
    QuotientMono(amount * total / total, amount, amount * total, amount * total, total) by {
      DivBounds(amount * total, total);
      assert (amount + 1) * total == amount * total + total;
    }
  }

  /** `scale_splits_for_input`: proportional shares, the remainder on the last split, and no
      split without input. */
  method ScaleSplits(amounts: seq<nat>, originalTotal: nat, newTotal: nat) returns (out: seq<nat>)
    requires newTotal <= U128_MAX
    ensures amounts == [] || originalTotal == 0 || newTotal == 0 ==> out == []
    ensures amounts != [] && originalTotal > 0 && newTotal > 0 ==> out == WithoutZeros(SplitParts(amounts, originalTotal, newTotal))
    ensures amounts != [] && originalTotal > 0 && newTotal > 0 ==>
      Sum(out) == Max(newTotal, Sum(ScaledHead(amounts, originalTotal, newTotal)))
    ensures amounts != [] && originalTotal > 0 && newTotal > 0 && Sum(amounts) <= originalTotal ==> Sum(out) == newTotal
    ensures 0 !in out && |out| <= |amounts|
  {
    out := [];
    if amounts == [] || originalTotal == 0 || newTotal == 0 {
      return;
    }
    hide ScaledHead, ShareOf, SatAdd, SatSub, Sum, WithoutZeros, SplitParts, Given;
    ghost var parts := SplitParts(amounts, originalTotal, newTotal);
    var given := 0;
    NothingGiven(parts);
    PartCount(amounts, originalTotal, newTotal);
    for i := 0 to |amounts|
      invariant Given(parts, i, given, out)
    {
      PartAt(amounts, originalTotal, newTotal, i, given, out);
      var scaled := if i + 1 == |amounts| then SatSub(newTotal, given) else ShareOf(amounts[i], originalTotal, newTotal);
      GiveNext(parts, i, given, out);
      given := SatAdd(given, scaled);
      if scaled > 0 {
        out := out + [scaled];
      }
    }
    AllGiven(parts, given, out);
    RescaledSum(amounts, originalTotal, newTotal);
  }

  /** The first `i` parts have been handed out. */
  ghost predicate Given(parts: seq<nat>, i: nat, given: nat, out: seq<nat>)
    requires i <= |parts|
  {
    out == WithoutZeros(parts[..i]) && given == Min(Sum(parts[..i]), U128_MAX)
  }

  lemma AllGiven(parts: seq<nat>, given: nat, out: seq<nat>)
    requires Given(parts, |parts|, given, out)
    ensures out == WithoutZeros(parts)
  {
    assert parts[..|parts|] == parts;
  }

  lemma RescaledSum(amounts: seq<nat>, originalTotal: nat, newTotal: nat)
    requires originalTotal > 0 && amounts != []
    ensures var out := WithoutZeros(SplitParts(amounts, originalTotal, newTotal));
      && 0 !in out && |out| <= |amounts|
      && Sum(out) == Max(newTotal, Sum(ScaledHead(amounts, originalTotal, newTotal)))
      && (Sum(amounts) <= originalTotal ==> Sum(out) == newTotal)
  {
    var parts := SplitParts(amounts, originalTotal, newTotal);
    PartCount(amounts, originalTotal, newTotal);
    hide ScaledHead, Sum, WithoutZeros, SplitParts;
    if Sum(amounts) <= originalTotal {
      ScaledHeadFits(amounts, originalTotal, newTotal) by {
        AllButLast(amounts);
      }
    }
    ZerosDropped(parts);
    ZerosAddNothing(parts);
    PartsSum(amounts, originalTotal, newTotal);
  }

  lemma AllButLast(xs: seq<nat>)
    requires xs != []
    ensures Sum(xs[..|xs| - 1]) <= Sum(xs)
  {}

  lemma PartCount(amounts: seq<nat>, originalTotal: nat, newTotal: nat)
    requires originalTotal > 0 && amounts != []
    ensures |SplitParts(amounts, originalTotal, newTotal)| == |amounts|
  {
    ShareCount(amounts, originalTotal, newTotal);
  }

  /** The loop's share is the part. */
  lemma PartAt(amounts: seq<nat>, originalTotal: nat, newTotal: nat, i: nat, given: nat, out: seq<nat>)
    requires originalTotal > 0 && i < |amounts| && newTotal <= U128_MAX
    requires |SplitParts(amounts, originalTotal, newTotal)| == |amounts|
    requires Given(SplitParts(amounts, originalTotal, newTotal), i, given, out)
    ensures SplitParts(amounts, originalTotal, newTotal)[i] ==
      if i + 1 == |amounts| then SatSub(newTotal, given) else ShareOf(amounts[i], originalTotal, newTotal)
  {
    ShareCount(amounts, originalTotal, newTotal);
    if i + 1 < |amounts| {
      ShareAt(amounts, originalTotal, newTotal, i);
    } else {
      hide ScaledHead, ShareOf, Sum;
      assert SplitParts(amounts, originalTotal, newTotal)[..i] == ScaledHead(amounts, originalTotal, newTotal);
    }
  }

  lemma NothingGiven(parts: seq<nat>)
    ensures Given(parts, 0, 0, [])
  {}

  lemma GiveNext(parts: seq<nat>, i: nat, given: nat, out: seq<nat>)
    requires i < |parts| && Given(parts, i, given, out)
    ensures Given(parts, i + 1, SatAdd(given, parts[i]), if parts[i] > 0 then out + [parts[i]] else out)
  {
    assert parts[..i + 1][..i] == parts[..i];
  }

  /** The new total is conserved whenever the splits before the last one did not exceed the
      original total. */
  lemma ScaledHeadFits(amounts: seq<nat>, originalTotal: nat, newTotal: nat)
    requires amounts != [] && originalTotal > 0
    requires Sum(amounts[..|amounts| - 1]) <= originalTotal
    ensures Sum(ScaledHead(amounts, originalTotal, newTotal)) <= newTotal
  {
    var n := |amounts| - 1;
    var head := ScaledHead(amounts, originalTotal, newTotal);
    forall i | 0 <= i < n ensures head[i] * originalTotal <= newTotal * amounts[i] {
      DivBounds(SatMul(newTotal, amounts[i]), originalTotal);
    }
    SumScaled(head, amounts[..n], originalTotal, newTotal);
    ProductBound(newTotal, Sum(amounts[..n]), originalTotal);
    ProductCancel(Sum(head), newTotal, originalTotal);
  }

  lemma {:induction false} SumScaled(head: seq<nat>, amounts: seq<nat>, d: nat, m: nat)
    requires |head| == |amounts|
    requires forall i :: 0 <= i < |head| ==> head[i] * d <= m * amounts[i]
    ensures Sum(head) * d <= m * Sum(amounts)
  {
    if head != [] {
      var n := |head| - 1;
      SumScaled(head[..n], amounts[..n], d, m);
      assert (Sum(head[..n]) + head[n]) * d == Sum(head[..n]) * d + head[n] * d;
      assert m * (Sum(amounts[..n]) + amounts[n]) == m * Sum(amounts[..n]) + m * amounts[n];
    }
  }

  lemma ProductBound(m: nat, a: nat, b: nat)
    requires a <= b
    ensures m * a <= m * b
  {
    MulMono(a, b, m);
  }

  lemma ProductCancel(a: nat, b: nat, d: nat)
    requires d > 0 && a * d <= b * d
    ensures a <= b
  {
    assert (b + 1) * d == b * d + d;
    if a > b {
      MulMono(b + 1, a, d);
    }
  }

  /** A hop's splits, as the optimizer made them, rescaled to another input as the verification of a
      plan does: they always sum to the new input, so they can be rescaled again. */
  method SplitThenRescale(edges: S.Edges, legs: Option<seq<V2Split.Leg>>, quote: S.Quoter, totalIn: nat, maxParallel: nat,
                          sqrt: real -> real, newTotal: nat)
    returns (hop: Option<(seq<S.Plan>, nat)>, out: seq<nat>)
    requires totalIn <= U128_MAX && maxParallel > 0 && newTotal <= U128_MAX
    requires legs.Some? ==> S.LegsMatch(edges, maxParallel, legs.value)
    ensures hop.None? ==> S.HopFails(edges, legs, quote, totalIn, maxParallel, sqrt)
    ensures if hop.Some? && hop.value.0 != [] && newTotal > 0 then Sum(out) == newTotal else out == []
    ensures 0 !in out && (hop.Some? ==> |out| <= |hop.value.0|)
  {
    hide S.HopFails, S.SoundPlan, S.WaterFilled, S.GreedilySplit, S.BestSingle, S.LegsMatch;
    out := [];
    hop := S.OptimizePair(edges, legs, quote, totalIn, maxParallel, sqrt);
    if hop.Some? {
      var plans := hop.value.0;
      out := ScaleSplits(S.AmountsOf(plans), totalIn, newTotal);
      if plans != [] {
        InputIsPositive(edges, quote, plans);
      }
    }
  }

  lemma InputIsPositive(edges: S.Edges, quote: S.Quoter, plans: seq<S.Plan>)
    requires S.SoundPlans(edges, quote, plans) && plans != []
    ensures S.AmountsOf(plans) != [] && Sum(S.AmountsOf(plans)) > 0
  {
    assert plans[0] in plans;
    hide S.Fits, S.MinOut;
    SumBound(S.AmountsOf(plans), 0);
  }
}
