/** The constant-product quote of `src/amm/uniswap_v2.rs`: saturating 128-bit integers. */
module UniswapV2 {
  import opened Common
  import opened RationalCurve

  const U112_MAX: nat := 0xFFFF_FFFF_FFFF_FFFF_FFFF_FFFF_FFFF

  /** A pool seen from the input side. */
  datatype Pool = Pool(reserveIn: nat, reserveOut: nat, feePpm: nat)

  function FeeFactor(pool: Pool): nat {
    SatSub(PPM, pool.feePpm)
  }

  function Div(n: nat, d: nat): nat
    requires d > 0
  {
    n / d
  }

  /** `quote_exact_in` with the reserves already oriented. */
  function QuoteExactIn(pool: Pool, amountIn: nat): Option<nat> {
    if amountIn == 0 then Some(0)
    else if pool.reserveIn == 0 || pool.reserveOut == 0 then None
    else
      var withFee := SatMul(amountIn, FeeFactor(pool));
      Some(Div(SatMul(withFee, pool.reserveOut), SatAdd(SatMul(pool.reserveIn, PPM), withFee)))
  }

  /** Only an empty pool has no quote; nothing buys nothing, and a fee of a whole leaves nothing. */
  lemma QuoteFailsIff(pool: Pool, amountIn: nat)
    ensures QuoteExactIn(pool, amountIn).None? <==> amountIn > 0 && (pool.reserveIn == 0 || pool.reserveOut == 0)
    ensures QuoteExactIn(pool, 0) == Some(0)
    ensures pool.feePpm >= PPM && QuoteExactIn(pool, amountIn).Some? ==> QuoteExactIn(pool, amountIn).value == 0
  {}

  predicate Usable(pool: Pool) {
    pool.reserveIn > 0 && pool.reserveOut > 0 && pool.feePpm < PPM
  }

  /** The exact denominator, before any saturation. */
  function TrueDenominator(pool: Pool, amountIn: nat): (d: nat)
    ensures Usable(pool) ==> d > 0
  {
    pool.reserveIn * PPM + amountIn * FeeFactor(pool)
  }

  function TrueNumerator(pool: Pool, amountIn: nat): nat {
    amountIn * FeeFactor(pool) * pool.reserveOut
  }

  predicate DenominatorFits(pool: Pool, amountIn: nat) {
    TrueDenominator(pool, amountIn) <= U128_MAX
  }

  /** The pool's curve over the reals. */
  function CurveOf(pool: Pool): (k: Curve)
    requires Usable(pool)
    ensures Proper(k) && k.denominatorSlope > 0.0
  {
    var fee := FeeFactor(pool) as real;
    Curve(fee * pool.reserveOut as real, pool.reserveIn as real * PPM as real, fee)
  }

  lemma CurveInIntegers(pool: Pool, amountIn: nat)
    requires Usable(pool)
    ensures Denominator(CurveOf(pool), amountIn as real) == TrueDenominator(pool, amountIn) as real
    ensures CurveOf(pool).numerator * amountIn as real == TrueNumerator(pool, amountIn) as real
  {
    var f, a, r := FeeFactor(pool), amountIn, pool.reserveOut;
    ToReal(a, f);
    ToReal(a * f, r);
    ToReal(pool.reserveIn, PPM);
    assert f as real * r as real * a as real == (a as real * f as real) * r as real;
  }

  lemma ToReal(a: nat, b: nat)
    ensures (a * b) as real == a as real * b as real
  {}

  /** A quote is below the curve exactly when it is below it in integers. */
  lemma BelowCurve(pool: Pool, amountIn: nat, quote: nat)
    requires Usable(pool)
    ensures quote as real <= Output(CurveOf(pool), amountIn as real)
       <==> quote * TrueDenominator(pool, amountIn) <= TrueNumerator(pool, amountIn)
  {
    hide Output, Denominator;
    var k, x, d := CurveOf(pool), amountIn as real, TrueDenominator(pool, amountIn);
    CurveInIntegers(pool, amountIn);
    OutputTimes(k, x);
    ProductMono(quote as real, Output(k, x), d as real);
    ToReal(quote, d);
  }

  /** While the denominator fits 128 bits the integer quote stays at or below the curve,
      even when its numerator saturates. */
  lemma QuoteBelowCurve(pool: Pool, amountIn: nat)
    requires Usable(pool) && DenominatorFits(pool, amountIn)
    ensures QuoteExactIn(pool, amountIn).Some?
    ensures QuoteExactIn(pool, amountIn).value as real <= Output(CurveOf(pool), amountIn as real)
  {
    hide Output;
    var q := QuoteExactIn(pool, amountIn).value;
    BelowCurve(pool, amountIn, q);
    if amountIn > 0 {
      var d := TrueDenominator(pool, amountIn);
      DivBounds(SatMul(amountIn * FeeFactor(pool), pool.reserveOut), d);
    }
  }

  /** The quote exceeds the curve exactly when the denominator overflows while the saturated
      numerator still reaches 128 bits below the true denominator. */
  predicate SaturationExceedsCurve(pool: Pool, amountIn: nat) {
    && !DenominatorFits(pool, amountIn)
    && SatMul(amountIn, FeeFactor(pool)) * pool.reserveOut >= U128_MAX
    && TrueNumerator(pool, amountIn) < TrueDenominator(pool, amountIn)
  }

  lemma QuoteBelowCurveIff(pool: Pool, amountIn: nat)
    requires Usable(pool) && amountIn > 0
    ensures QuoteExactIn(pool, amountIn).Some?
    ensures QuoteExactIn(pool, amountIn).value as real <= Output(CurveOf(pool), amountIn as real)
       <==> !SaturationExceedsCurve(pool, amountIn)
  {
    hide Output;
    if DenominatorFits(pool, amountIn) {
      QuoteBelowCurve(pool, amountIn);
    } else {
      var q := QuoteExactIn(pool, amountIn).value;
      BelowCurve(pool, amountIn, q);
      DenominatorSaturates(pool, amountIn);
      SaturatedQuotient(SatMul(SatMul(amountIn, FeeFactor(pool)), pool.reserveOut), q);
    }
  }

  lemma DenominatorSaturates(pool: Pool, amountIn: nat)
    requires !DenominatorFits(pool, amountIn)
    ensures SatAdd(SatMul(pool.reserveIn, PPM), SatMul(amountIn, FeeFactor(pool))) == U128_MAX
  {}

  /** Such an input exists, with both reserves within the 112 bits of a pair contract: a thousand
      units buy one although the curve pays a fifth of one. */
  lemma SaturationExample() returns (pool: Pool, amountIn: nat)
    ensures Usable(pool) && amountIn == 1000 && pool.feePpm == 3_000
    ensures pool.reserveIn <= U112_MAX && pool.reserveOut <= U112_MAX
    ensures QuoteExactIn(pool, amountIn).Some?
    ensures QuoteExactIn(pool, amountIn).value as real > Output(CurveOf(pool), amountIn as real)
  {
    pool, amountIn := Pool(U112_MAX, 1_000_000_000_000_000_000_000_000_000_000, 3_000), 1000;
    QuoteBelowCurveIff(pool, amountIn);
    hide Output;
    assert FeeFactor(pool) == 997_000;
    assert SatMul(amountIn, FeeFactor(pool)) == 997_000_000;
    assert TrueDenominator(pool, amountIn) == U112_MAX * PPM + 997_000_000;
  }

  // ----- how far below the curve a quote can be

  lemma SaturatedProduct(a: nat, f: nat, r: nat)
    requires r > 0
    ensures SatMul(SatMul(a, f), r) == Min(a * f * r, U128_MAX)
  {
    MulMono(1, r, a * f);
    MulMono(1, r, U128_MAX);
    if a * f >= U128_MAX {
      MulMono(U128_MAX, a * f, r);
    }
  }

  /** While the denominator fits, only the numerator can saturate. */
  lemma QuoteIsQuotient(pool: Pool, amountIn: nat)
    requires Usable(pool) && DenominatorFits(pool, amountIn)
    ensures QuoteExactIn(pool, amountIn) ==
            Some(Div(Min(TrueNumerator(pool, amountIn), U128_MAX), TrueDenominator(pool, amountIn)))
  {
    if amountIn > 0 {
      SaturatedProduct(amountIn, FeeFactor(pool), pool.reserveOut);
    }
  }

  lemma QuotientBound(n: nat, d: nat, q: nat)
    requires d > 0
    ensures q * d <= n <==> q <= Div(n, d)
  {
    DivBounds(n, d);
    if q <= n / d {
      MulMono(q, n / d, d);
    } else {
      MulMono(n / d + 1, q, d);
    }
  }

  /** The quote is within a unit of the curve if and only if the saturated numerator leaves room for the
      quotient of the true one. */
  lemma QuoteNearCurveIff(pool: Pool, amountIn: nat)
    requires Usable(pool) && DenominatorFits(pool, amountIn)
    ensures QuoteExactIn(pool, amountIn).Some?
    ensures Output(CurveOf(pool), amountIn as real) < QuoteExactIn(pool, amountIn).value as real + 1.0 <==>
            Div(TrueNumerator(pool, amountIn), TrueDenominator(pool, amountIn)) <= Div(U128_MAX, TrueDenominator(pool, amountIn))
  {
    hide Output, CurveOf;
    QuoteIsQuotient(pool, amountIn);
    hide QuoteExactIn, TrueNumerator, TrueDenominator, DenominatorFits;
    var n, d, q := TrueNumerator(pool, amountIn), TrueDenominator(pool, amountIn), QuoteExactIn(pool, amountIn).value;
    BelowCurve(pool, amountIn, q + 1);
    QuotientBound(n, d, q + 1);
    hide Div;
    QuotientsOrdered(n, U128_MAX, d);
  }

  lemma QuotientsOrdered(a: nat, b: nat, d: nat)
    requires d > 0
    ensures a <= b ==> Div(a, d) <= Div(b, d)
  {
    if a <= b {
      QuotientBound(a, d, Div(a, d));
      QuotientBound(b, d, Div(a, d));
    }
  }

  /** A pool with a million tokens of 18 decimals on each side: for one token it quotes less than a
      billionth of what its curve pays. */
  lemma SaturatedNumeratorExample() returns (pool: Pool, amountIn: nat)
    ensures Usable(pool) && DenominatorFits(pool, amountIn) && pool.feePpm == 3_000
    ensures pool.reserveIn == pool.reserveOut == 1_000_000_000_000_000_000_000_000 && amountIn == 1_000_000_000_000_000_000
    ensures QuoteExactIn(pool, amountIn).Some?
    ensures QuoteExactIn(pool, amountIn).value as real * 1000000000.0 < Output(CurveOf(pool), amountIn as real)
  {
    pool, amountIn := Pool(1_000_000_000_000_000_000_000_000, 1_000_000_000_000_000_000_000_000, 3_000), 1_000_000_000_000_000_000;
    hide Output, CurveOf, QuoteExactIn;
    var d: nat := 1_000_000_997_000_000_000_000_000_000_000;
    assert FeeFactor(pool) == 997_000;
    assert TrueDenominator(pool, amountIn) == d;
    assert TrueNumerator(pool, amountIn) == 997_000_000_000_000_000_000_000_000_000_000_000_000_000_000_000;
    QuoteIsQuotient(pool, amountIn);
    var q := QuoteExactIn(pool, amountIn).value;
    DivBounds(U128_MAX, d);
    assert q * d <= U128_MAX;
    BelowCurve(pool, amountIn, q * 1_000_000_000 + 1);
  }
}
