/** Ranking candidates, keeping variants per token path and the final selection
    (`src/detector/path_finder.rs`). */
module CandidateSelection {
  import opened Common
  import opened Sorting
  import opened CycleKeys

  datatype Tuning = Tuning(maxCandidates: nat, canonicalVariants: nat, anchorVariants: nat, poolVariants: nat,
                           fillRotated: bool, dedupTokenPaths: bool, budgetMultiplier: nat)

  // ----- ranking

  /** `screening_edge_bps` */
  function EdgeBps(score: int): nat {
    if score >= 0 then 0 else SatMul(-score, 10_000) / 0x1_0000_0000
  }

  /** `candidate_profit_potential_usd_e8` */
  function Potential(c: Candidate): nat {
    SatMul(SatMul(c.routeCapacity, EdgeBps(c.score)), c.routeQuality) / 100_000_000
  }

  /** `candidate_ordering`: larger potential, then lower score, then larger capacity, then fewer hops. */
  function Ranked(): (Candidate, Candidate) -> bool {
    (a: Candidate, b: Candidate) =>
      if Potential(a) != Potential(b) then Potential(a) > Potential(b)
      else if a.score != b.score then a.score < b.score
      else if a.routeCapacity != b.routeCapacity then a.routeCapacity > b.routeCapacity
      else |a.path| <= |b.path|
  }

  /** Among equals in one respect the next one decides: potential, score, capacity, hops. */
  ghost predicate RanksNoLower(a: Candidate, b: Candidate) {
    && Potential(a) >= Potential(b)
    && (Potential(a) == Potential(b) ==>
          && a.score <= b.score
          && (a.score == b.score ==>
                && a.routeCapacity >= b.routeCapacity
                && (a.routeCapacity == b.routeCapacity ==> |a.path| <= |b.path|)))
  }

  lemma RankedMeans(a: Candidate, b: Candidate)
    ensures Ranked()(a, b) <==> RanksNoLower(a, b)
  {
    hide Potential;
  }

  /** The edge is the negated score, a fixed-point number with 32 binary places, in ten-thousandths, rounded down. */
  lemma EdgeInBps(score: int)
    ensures score >= 0 ==> EdgeBps(score) == 0
    ensures score < 0 && -score * 10_000 <= U128_MAX ==>
      EdgeBps(score) * 0x1_0000_0000 <= -score * 10_000 < (EdgeBps(score) + 1) * 0x1_0000_0000
  {
    if score < 0 {
      DivBounds(SatMul(-score, 10_000), 0x1_0000_0000);
    }
  }

  /** The potential is capacity times edge times quality, in units of 1e-8, rounded down. */
  lemma PotentialIsProduct(c: Candidate)
    requires c.routeCapacity * EdgeBps(c.score) <= U128_MAX && c.routeCapacity * EdgeBps(c.score) * c.routeQuality <= U128_MAX
    ensures Potential(c) * 100_000_000 <= c.routeCapacity * EdgeBps(c.score) * c.routeQuality < (Potential(c) + 1) * 100_000_000
  {
    hide EdgeBps;
    DivBounds(c.routeCapacity * EdgeBps(c.score) * c.routeQuality, 100_000_000);
  }

  lemma RankedIsTotal()
    ensures TotalPreorder(Ranked())
  {
    hide Potential;
  }

  // ----- variants of one token path

  /** What an entry holds after one more candidate. */
  function WithVariant(variants: seq<Candidate>, c: Candidate, limit: nat): seq<Candidate> {
    Take(Sort(variants + [c], Ranked()), limit)
  }

  /** `insert_token_path_variant` */
  method InsertTokenPathVariant(m: map<string, seq<Candidate>>, key: string, c: Candidate, maxVariants: nat)
    returns (m': map<string, seq<Candidate>>, added: bool)
    requires SortedBy(Entry(m, key), Ranked()) && |Entry(m, key)| <= Max(maxVariants, 1)
    ensures m' == m[key := WithVariant(Entry(m, key), c, Max(maxVariants, 1))]
    ensures added <==> |Entry(m, key)| < Max(maxVariants, 1)
  {
    var limit := Max(maxVariants, 1);
    var variants := Entry(m, key);
    VariantStep(variants, c, limit);
    if |variants| < limit {
      return m[key := Sort(variants + [c], Ranked())], true;
    }
    var worst := variants[|variants| - 1];
    if !Ranked()(worst, c) {
      variants := Sort(variants[..|variants| - 1] + [c], Ranked());
    }
    m', added := m[key := variants], false;
  }

  lemma VariantStep(variants: seq<Candidate>, c: Candidate, limit: nat)
    requires SortedBy(variants, Ranked()) && |variants| <= limit && limit > 0
    ensures |variants| < limit ==> WithVariant(variants, c, limit) == Sort(variants + [c], Ranked())
    ensures |variants| == limit && Ranked()(variants[|variants| - 1], c) ==> WithVariant(variants, c, limit) == variants
    ensures |variants| == limit && !Ranked()(variants[|variants| - 1], c) ==>
      WithVariant(variants, c, limit) == Sort(variants[..|variants| - 1] + [c], Ranked())
  {
    hide Ranked;
    SortPush(variants, c);
    if |variants| == limit {
      var init := variants[..|variants| - 1];
      SortPush(init, c);
    }
  }

  lemma SortPush(s: seq<Candidate>, c: Candidate)
    requires SortedBy(s, Ranked())
    ensures Sort(s + [c], Ranked()) == InsertAfter(s, c, Ranked())
  {
    SortSorted(s, Ranked());
    assert (s + [c])[..|s + [c]| - 1] == s;
  }

  /** An entry after a whole history of candidates for its token path. */
  function VariantsAfter(history: seq<Candidate>, limit: nat): seq<Candidate> {
    if history == [] then []
    else WithVariant(VariantsAfter(history[..|history| - 1], limit), history[|history| - 1], limit)
  }

  lemma {:induction false} InsertThenTake(s: seq<Candidate>, c: Candidate, k: nat)
    requires SortedBy(s, Ranked())
    ensures Take(InsertAfter(Take(s, k), c, Ranked()), k) == Take(InsertAfter(s, c, Ranked()), k)
  {
    hide Ranked;
    if |s| <= k {
      assert Take(s, k) == s;
    } else {
      var init, last := s[..|s| - 1], s[|s| - 1];
      assert Take(s, k) == Take(init, k);
      InsertThenTake(init, c, k);
      if Ranked()(last, c) {
        assert Take(s + [c], k) == Take(s, k);
        if |init| > k {
          AtEnd(Take(s, k), s, c);
        } else {
          assert Take(s, k) == init;
          AtEnd(init, s, c);
        }
      } else {
        assert Take(InsertAfter(init, c, Ranked()) + [last], k) == Take(InsertAfter(init, c, Ranked()), k);
      }
    }
  }

  /** Appended behind a sorted list, a candidate that is not ahead of the last goes to the end. */
  lemma AtEnd(kept: seq<Candidate>, s: seq<Candidate>, c: Candidate)
    requires SortedBy(s, Ranked()) && kept <= s && s != [] && Ranked()(s[|s| - 1], c)
    ensures InsertAfter(kept, c, Ranked()) == kept + [c]
  {
    RankedIsTotal();
    if kept != [] && |kept| < |s| {
      assert Ranked()(s[|kept| - 1], s[|s| - 1]);
    }
  }

  /** However the candidates of one token path come in, its entry holds the best of all of them, in order. */
  lemma {:induction false} VariantsAreBest(history: seq<Candidate>, limit: nat)
    ensures VariantsAfter(history, limit) == Take(Sort(history, Ranked()), limit)
    ensures SortedBy(VariantsAfter(history, limit), Ranked())
  {
    if history != [] {
      var init, last := history[..|history| - 1], history[|history| - 1];
      VariantsAreBest(init, limit);
      RankedIsTotal();
      SortSorts(init, Ranked());
      SortSorts(history, Ranked());
      hide Ranked;
      SortPush(VariantsAfter(init, limit), last);
      InsertThenTake(Sort(init, Ranked()), last, limit);
    }
  }

  // ----- the final selection

  function Keys(cs: seq<Candidate>, show: Show): seq<string> {
    seq(|cs|, i requires 0 <= i < |cs| => AnchorPoolKey(cs[i], show))
  }

  function AnchorTokenKey(c: Candidate, show: Show): string {
    TokenCycleKey(c, show) + ":" + show(c.startToken)
  }

  /** How many selected candidates run along one token cycle. */
  function OnTokenCycle(cs: seq<Candidate>, key: string, show: Show): nat {
    if cs == [] then 0
    else OnTokenCycle(cs[..|cs| - 1], key, show) + (if TokenCycleKey(cs[|cs| - 1], show) == key then 1 else 0)
  }

  /** How many run along one token cycle from one anchor. */
  function OnAnchoredCycle(cs: seq<Candidate>, key: string, show: Show): nat {
    if cs == [] then 0
    else OnAnchoredCycle(cs[..|cs| - 1], key, show) + (if AnchorTokenKey(cs[|cs| - 1], show) == key then 1 else 0)
  }

  /** Two candidates have one anchored key if and only if they start at one anchor and their token cycles are
      rotations of one another. */
  lemma AnchorTokenKeyDecides(c: Candidate, d: Candidate, show: Show, width: nat)
    requires FixedWidth(show, width) && width > 0
    ensures AnchorTokenKey(c, show) == AnchorTokenKey(d, show) <==>
            c.startToken == d.startToken && IsRotation(CycleTokens(c), CycleTokens(d))
  {
    TokenKeyDecidesRotation(c, d, show, width);
    assert |show(c.startToken)| == |show(d.startToken)| == width;
    assert show(c.startToken) == show(d.startToken) <==> c.startToken == d.startToken;
    hide TokenCycleKey, IsRotation, FixedWidth;
    var k, l := TokenCycleKey(c, show), TokenCycleKey(d, show);
    var a, b := AnchorTokenKey(c, show), AnchorTokenKey(d, show);
    assert a == k + ":" + show(c.startToken) && b == l + ":" + show(d.startToken);
    if a == b {
      assert |k| == |l|;
      assert a[..|k|] == k && b[..|l|] == l;
      assert a[|k| + 1..] == show(c.startToken) && b[|l| + 1..] == show(d.startToken);
    }
  }

  ghost function PlacesOnCycle(cs: seq<Candidate>, key: string, show: Show): set<nat> {
    set i: nat | i < |cs| && TokenCycleKey(cs[i], show) == key
  }

  ghost function PlacesOnAnchoredCycle(cs: seq<Candidate>, key: string, show: Show): set<nat> {
    set i: nat | i < |cs| && AnchorTokenKey(cs[i], show) == key
  }

  /** The counts are the numbers of candidates with that key. */
  lemma CountsArePlaces(cs: seq<Candidate>, key: string, show: Show)
    ensures OnTokenCycle(cs, key, show) == |PlacesOnCycle(cs, key, show)|
    ensures OnAnchoredCycle(cs, key, show) == |PlacesOnAnchoredCycle(cs, key, show)|
  {
    CycleCountIsPlaces(cs, key, show);
    AnchoredCountIsPlaces(cs, key, show);
  }

  lemma {:induction false} CycleCountIsPlaces(cs: seq<Candidate>, key: string, show: Show)
    ensures OnTokenCycle(cs, key, show) == |PlacesOnCycle(cs, key, show)|
  {
    hide TokenCycleKey;
    if cs == [] {
      assert PlacesOnCycle(cs, key, show) == {};
    } else {
      var n := |cs| - 1;
      CycleCountIsPlaces(cs[..n], key, show);
      assert PlacesOnCycle(cs, key, show) ==
             PlacesOnCycle(cs[..n], key, show) + if TokenCycleKey(cs[n], show) == key then {n} else {};
    }
  }

  lemma {:induction false} AnchoredCountIsPlaces(cs: seq<Candidate>, key: string, show: Show)
    ensures OnAnchoredCycle(cs, key, show) == |PlacesOnAnchoredCycle(cs, key, show)|
  {
    hide AnchorTokenKey;
    if cs == [] {
      assert PlacesOnAnchoredCycle(cs, key, show) == {};
    } else {
      var n := |cs| - 1;
      AnchoredCountIsPlaces(cs[..n], key, show);
      assert PlacesOnAnchoredCycle(cs, key, show) ==
             PlacesOnAnchoredCycle(cs[..n], key, show) + if AnchorTokenKey(cs[n], show) == key then {n} else {};
    }
  }

  ghost predicate WithinVariants(cs: seq<Candidate>, t: Tuning, show: Show) {
    && (forall key :: OnTokenCycle(cs, key, show) <= Max(t.canonicalVariants, 1))
    && (forall key :: OnAnchoredCycle(cs, key, show) <= Max(t.anchorVariants, 1))
  }

  function CountAt(m: map<string, nat>, key: string): nat {
    if key in m then m[key] else 0
  }

  ghost predicate PicksFrom(cs: seq<Candidate>, from: seq<Candidate>) {
    forall c :: c in cs ==> c in from
  }

  /** As many as allowed run along the token cycle of `c`, or along it from the anchor of `c`. */
  predicate Crowded(cs: seq<Candidate>, c: Candidate, t: Tuning, show: Show) {
    || OnTokenCycle(cs, TokenCycleKey(c, show), show) >= Max(t.canonicalVariants, 1)
    || OnAnchoredCycle(cs, AnchorTokenKey(c, show), show) >= Max(t.anchorVariants, 1)
  }

  /** The picks of the first pass: every candidate in turn until the number is reached, unless an earlier
      one had its anchor and pool cycle or its token cycle is crowded. */
  function Picks(ranked: seq<Candidate>, t: Tuning, show: Show): seq<Candidate> {
    if ranked == [] then []
    else
      var n := |ranked| - 1;
      var before := Picks(ranked[..n], t, show);
      if |before| >= Max(t.maxCandidates, 1) || AnchorPoolKey(ranked[n], show) in Keys(ranked[..n], show)
         || Crowded(before, ranked[n], t, show)
      then before
      else before + [ranked[n]]
  }

  /** The first picks and, in order of rank, every candidate whose anchor and pool cycle is still
      missing, until the number is reached. */
  function FillUp(first: seq<Candidate>, ranked: seq<Candidate>, limit: nat, show: Show): seq<Candidate> {
    if ranked == [] then first
    else
      var n := |ranked| - 1;
      var before := FillUp(first, ranked[..n], limit, show);
      if |before| >= limit || AnchorPoolKey(ranked[n], show) in Keys(before, show) then before
      else before + [ranked[n]]
  }

  lemma KeysPush(cs: seq<Candidate>, c: Candidate, show: Show)
    ensures Keys(cs + [c], show) == Keys(cs, show) + [AnchorPoolKey(c, show)]
  {
    hide AnchorPoolKey;
  }

  lemma CountsPush(cs: seq<Candidate>, c: Candidate, show: Show, key: string)
    ensures OnTokenCycle(cs + [c], key, show) == OnTokenCycle(cs, key, show) + (if TokenCycleKey(c, show) == key then 1 else 0)
    ensures OnAnchoredCycle(cs + [c], key, show) == OnAnchoredCycle(cs, key, show) + (if AnchorTokenKey(c, show) == key then 1 else 0)
  {
    hide TokenCycleKey, AnchorTokenKey;
    assert (cs + [c])[..|cs|] == cs;
  }

  lemma VariantsPush(cs: seq<Candidate>, c: Candidate, t: Tuning, show: Show)
    requires WithinVariants(cs, t, show) && !Crowded(cs, c, t, show)
    ensures WithinVariants(cs + [c], t, show)
  {
    hide TokenCycleKey, AnchorTokenKey, OnTokenCycle, OnAnchoredCycle;
    forall key
      ensures OnTokenCycle(cs + [c], key, show) <= Max(t.canonicalVariants, 1)
      ensures OnAnchoredCycle(cs + [c], key, show) <= Max(t.anchorVariants, 1)
    {
      CountsPush(cs, c, show, key);
    }
  }

  /** Nothing with this key has been picked when no candidate had it. */
  lemma NewKey(from: seq<Candidate>, cs: seq<Candidate>, key: string, show: Show)
    requires PicksFrom(cs, from) && key !in Keys(from, show)
    ensures key !in Keys(cs, show)
  {
    hide AnchorPoolKey;
    forall i | 0 <= i < |cs| ensures Keys(cs, show)[i] in Keys(from, show) {
      assert cs[i] in cs;
      var j :| 0 <= j < |from| && from[j] == cs[i];
      assert Keys(from, show)[j] == Keys(cs, show)[i];
    }
  }

  lemma SortedPush(cs: seq<Candidate>, c: Candidate)
    requires SortedBy(cs, Ranked()) && forall x :: x in cs ==> Ranked()(x, c)
    ensures SortedBy(cs + [c], Ranked())
  {
    hide Ranked;
  }

  lemma BeforeLast(ranked: seq<Candidate>, n: nat)
    requires SortedBy(ranked, Ranked()) && n < |ranked|
    ensures SortedBy(ranked[..n], Ranked()) && forall x :: x in ranked[..n] ==> Ranked()(x, ranked[n])
  {
    hide Ranked;
  }

  lemma {:induction false} PicksAreRanked(ranked: seq<Candidate>, t: Tuning, show: Show)
    ensures PicksFrom(Picks(ranked, t, show), ranked) && |Picks(ranked, t, show)| <= Max(t.maxCandidates, 1)
    ensures SortedBy(ranked, Ranked()) ==> SortedBy(Picks(ranked, t, show), Ranked())
    ensures ranked != [] ==> Picks(ranked, t, show) != [] && Picks(ranked, t, show)[0] == ranked[0]
  {
    hide Ranked, AnchorPoolKey, SortedBy, Crowded;
    if ranked != [] {
      var n := |ranked| - 1;
      var before := Picks(ranked[..n], t, show);
      PicksAreRanked(ranked[..n], t, show);
      if SortedBy(ranked, Ranked()) {
        BeforeLast(ranked, n);
        SortedPush(before, ranked[n]);
      }
      NeverCrowdedAtFirst(ranked[n], t, show);
    }
  }

  lemma NeverCrowdedAtFirst(c: Candidate, t: Tuning, show: Show)
    ensures !Crowded([], c, t, show)
  {}

  lemma {:induction false} PicksWithinLimits(ranked: seq<Candidate>, t: Tuning, show: Show)
    ensures NoDup(Keys(Picks(ranked, t, show), show)) && WithinVariants(Picks(ranked, t, show), t, show)
  {
    hide Ranked, AnchorPoolKey, Crowded, WithinVariants, NoDup;
    if ranked == [] {
      EmptySelection(t, show);
    } else {
      var n := |ranked| - 1;
      var before, key := Picks(ranked[..n], t, show), AnchorPoolKey(ranked[n], show);
      PicksWithinLimits(ranked[..n], t, show);
      PicksAreRanked(ranked[..n], t, show);
      if |Picks(ranked, t, show)| > |before| {
        VariantsPush(before, ranked[n], t, show);
        NewKey(ranked[..n], before, key, show);
        KeysPush(before, ranked[n], show);
        NoDupPush(Keys(before, show), key);
      }
    }
  }

  lemma EmptySelection(t: Tuning, show: Show)
    ensures NoDup(Keys([], show)) && WithinVariants([], t, show)
  {}

  /** Why the first pass passed over the candidate at rank `i`: an earlier one has its anchor and pool
      cycle, or its token cycle was crowded by picks of lower rank. */
  ghost predicate PassedOver(ranked: seq<Candidate>, picked: seq<Candidate>, i: nat, t: Tuning, show: Show)
    requires i < |ranked|
  {
    || AnchorPoolKey(ranked[i], show) in Keys(ranked[..i], show)
    || exists n: nat :: n <= |picked| && PicksFrom(picked[..n], ranked[..i]) && Crowded(picked[..n], ranked[i], t, show)
  }

  /** Below its number the first pass leaves nothing out without a reason. */
  lemma {:induction false} PicksAreMaximal(ranked: seq<Candidate>, t: Tuning, show: Show, i: nat)
    requires i < |ranked| && |Picks(ranked, t, show)| < Max(t.maxCandidates, 1)
    ensures ranked[i] in Picks(ranked, t, show) || PassedOver(ranked, Picks(ranked, t, show), i, t, show)
    decreases |ranked|
  {
    hide AnchorPoolKey, Crowded;
    var n := |ranked| - 1;
    var before, all := Picks(ranked[..n], t, show), Picks(ranked, t, show);
    if i < n {
      PicksAreMaximal(ranked[..n], t, show, i);
      assert ranked[..n][..i] == ranked[..i];
      if ranked[i] !in all && AnchorPoolKey(ranked[i], show) !in Keys(ranked[..i], show) {
        var m: nat :| m <= |before| && PicksFrom(before[..m], ranked[..i]) && Crowded(before[..m], ranked[i], t, show);
        assert all[..m] == before[..m];
      }
    } else {
      PicksAreRanked(ranked[..n], t, show);
      assert before[..|before|] == before;
      assert ranked[i] !in all ==> all == before;
    }
  }

  /** The first pass: in order of rank, one per anchor and pool cycle, within the variant limits.
      Of equal keys only the first is considered. */
  method SelectRanked(ranked: seq<Candidate>, t: Tuning, show: Show) returns (selected: seq<Candidate>)
    requires SortedBy(ranked, Ranked())
    ensures selected == Picks(ranked, t, show)
    ensures PicksFrom(selected, ranked) && NoDup(Keys(selected, show))
    ensures SortedBy(selected, Ranked()) && WithinVariants(selected, t, show)
    ensures |selected| <= Max(t.maxCandidates, 1)
    ensures ranked != [] ==> selected != [] && selected[0] == ranked[0]
    ensures |selected| < Max(t.maxCandidates, 1) ==>
      forall i :: 0 <= i < |ranked| ==> ranked[i] in selected || PassedOver(ranked, selected, i, t, show)
  {
    hide Ranked, AnchorPoolKey, TokenCycleKey, AnchorTokenKey, SortedBy, WithinVariants, NoDup, PassedOver, PicksFrom, Keys,
         Tallied, Crowded, CountAt;
    selected := [];
    var pools: set<string> := {};
    var tokenCounts: map<string, nat> := map[];
    var anchorCounts: map<string, nat> := map[];
    var variantsPerCycle, variantsPerAnchor := Max(t.canonicalVariants, 1), Max(t.anchorVariants, 1);
    TallyStarts(show);
    for i := 0 to |ranked|
      invariant selected == Picks(ranked[..i], t, show) && |selected| < Max(t.maxCandidates, 1)
      invariant forall key :: key in pools <==> key in Keys(ranked[..i], show)
      invariant Tallied(tokenCounts, anchorCounts, selected, show)
    {
      var candidate := ranked[i];
      var poolKey := AnchorPoolKey(candidate, show);
      assert ranked[..i + 1][..i] == ranked[..i] && ranked[..i + 1] == ranked[..i] + [candidate];
      KeysPush(ranked[..i], candidate, show);
      TallyDecides(tokenCounts, anchorCounts, selected, candidate, t, show);
      if poolKey in pools {
        continue;
      }
      pools := pools + {poolKey};
      var tokenKey := TokenCycleKey(candidate, show);
      var count := CountAt(tokenCounts, tokenKey);
      if count >= variantsPerCycle {
        continue;
      }
      var anchorKey := AnchorTokenKey(candidate, show);
      var anchorCount := CountAt(anchorCounts, anchorKey);
      if anchorCount >= variantsPerAnchor {
        continue;
      }
      TallyPush(tokenCounts, anchorCounts, selected, candidate, show);
      tokenCounts := tokenCounts[tokenKey := count + 1];
      anchorCounts := anchorCounts[anchorKey := anchorCount + 1];
      selected := selected + [candidate];
      if |selected| >= t.maxCandidates {
        PicksStay(ranked, t, show, i + 1);
        FirstPassFacts(ranked, t, show);
        return;
      }
    }
    assert ranked[..|ranked|] == ranked;
    FirstPassFacts(ranked, t, show);
  }

  /** The two maps count the candidates per token cycle, and per token cycle and anchor. */
  ghost predicate Tallied(tokenCounts: map<string, nat>, anchorCounts: map<string, nat>, cs: seq<Candidate>, show: Show) {
    && (forall key :: CountAt(tokenCounts, key) == OnTokenCycle(cs, key, show))
    && (forall key :: CountAt(anchorCounts, key) == OnAnchoredCycle(cs, key, show))
  }

  lemma TallyStarts(show: Show)
    ensures Tallied(map[], map[], [], show) && Keys([], show) == []
  {}

  lemma TallyDecides(tokenCounts: map<string, nat>, anchorCounts: map<string, nat>, cs: seq<Candidate>, c: Candidate,
                     t: Tuning, show: Show)
    requires Tallied(tokenCounts, anchorCounts, cs, show)
    ensures Crowded(cs, c, t, show) <==>
      || CountAt(tokenCounts, TokenCycleKey(c, show)) >= Max(t.canonicalVariants, 1)
      || CountAt(anchorCounts, AnchorTokenKey(c, show)) >= Max(t.anchorVariants, 1)
  {
    hide TokenCycleKey, AnchorTokenKey, OnTokenCycle, OnAnchoredCycle, CountAt;
  }

  lemma TallyPush(tokenCounts: map<string, nat>, anchorCounts: map<string, nat>, cs: seq<Candidate>, c: Candidate, show: Show)
    requires Tallied(tokenCounts, anchorCounts, cs, show)
    ensures var tokenKey, anchorKey := TokenCycleKey(c, show), AnchorTokenKey(c, show);
      Tallied(tokenCounts[tokenKey := CountAt(tokenCounts, tokenKey) + 1],
              anchorCounts[anchorKey := CountAt(anchorCounts, anchorKey) + 1], cs + [c], show)
  {
    hide TokenCycleKey, AnchorTokenKey, OnTokenCycle, OnAnchoredCycle;
    var tokenKey, anchorKey := TokenCycleKey(c, show), AnchorTokenKey(c, show);
    forall key
      ensures CountAt(tokenCounts[tokenKey := CountAt(tokenCounts, tokenKey) + 1], key) == OnTokenCycle(cs + [c], key, show)
      ensures CountAt(anchorCounts[anchorKey := CountAt(anchorCounts, anchorKey) + 1], key) == OnAnchoredCycle(cs + [c], key, show)
    {
      CountsPush(cs, c, show, key);
      assert CountAt(tokenCounts, key) == OnTokenCycle(cs, key, show);
      assert CountAt(anchorCounts, key) == OnAnchoredCycle(cs, key, show);
    }
  }

  /** Once the number is reached, the picks stay as they are. */
  lemma {:induction false} PicksStay(ranked: seq<Candidate>, t: Tuning, show: Show, n: nat)
    requires n <= |ranked| && |Picks(ranked[..n], t, show)| >= Max(t.maxCandidates, 1)
    ensures Picks(ranked, t, show) == Picks(ranked[..n], t, show)
    decreases |ranked|
  {
    hide AnchorPoolKey, Crowded;
    if n == |ranked| {
      assert ranked[..n] == ranked;
    } else {
      var m := |ranked| - 1;
      assert ranked[..m][..n] == ranked[..n];
      PicksStay(ranked[..m], t, show, n);
    }
  }

  lemma FirstPassFacts(ranked: seq<Candidate>, t: Tuning, show: Show)
    requires SortedBy(ranked, Ranked())
    ensures var picked := Picks(ranked, t, show);
      && PicksFrom(picked, ranked) && NoDup(Keys(picked, show))
      && SortedBy(picked, Ranked()) && WithinVariants(picked, t, show)
      && |picked| <= Max(t.maxCandidates, 1)
      && (ranked != [] ==> picked != [] && picked[0] == ranked[0])
      && (|picked| < Max(t.maxCandidates, 1) ==>
            forall i :: 0 <= i < |ranked| ==> ranked[i] in picked || PassedOver(ranked, picked, i, t, show))
  {
    hide *;
    PicksAreRanked(ranked, t, show);
    PicksWithinLimits(ranked, t, show);
    if |Picks(ranked, t, show)| < Max(t.maxCandidates, 1) {
      forall i | 0 <= i < |ranked| ensures ranked[i] in Picks(ranked, t, show) || PassedOver(ranked, Picks(ranked, t, show), i, t, show) {
        PicksAreMaximal(ranked, t, show, i);
      }
    }
  }

  lemma FirstIsBest(ranked: seq<Candidate>)
    requires SortedBy(ranked, Ranked())
    ensures forall c :: c in ranked ==> Ranked()(ranked[0], c)
  {
    RankedIsTotal();
  }

  // ----- filling up

  /** Of candidates with one anchor and pool cycle only the best is selected. */
  ghost predicate BestOfKey(selected: seq<Candidate>, from: seq<Candidate>, show: Show) {
    forall x, c :: x in selected && c in from && AnchorPoolKey(x, show) == AnchorPoolKey(c, show) ==> Ranked()(x, c)
  }

  /** Every anchor and pool cycle is represented. */
  ghost predicate Represented(selected: seq<Candidate>, from: seq<Candidate>, show: Show) {
    forall c :: c in from ==> AnchorPoolKey(c, show) in Keys(selected, show)
  }

  /** What was filled in goes before every candidate that is still not represented. */
  ghost predicate FilledByRank(filled: seq<Candidate>, selected: seq<Candidate>, from: seq<Candidate>, show: Show) {
    forall x, c :: x in filled && c in from && AnchorPoolKey(c, show) !in Keys(selected, show) ==> Ranked()(x, c)
  }

  lemma KeyInKeys(cs: seq<Candidate>, c: Candidate, show: Show)
    requires c in cs
    ensures AnchorPoolKey(c, show) in Keys(cs, show)
  {
    hide AnchorPoolKey;
    var i :| 0 <= i < |cs| && cs[i] == c;
    assert Keys(cs, show)[i] == AnchorPoolKey(c, show);
  }

  /** The next candidate is behind all before it; if none of them has its key, it may be selected. */
  lemma BestOfKeyPush(before: seq<Candidate>, ranked: seq<Candidate>, n: nat, show: Show)
    requires SortedBy(ranked, Ranked()) && n + 1 == |ranked|
    requires PicksFrom(before, ranked[..n]) && BestOfKey(before, ranked[..n], show)
    ensures BestOfKey(before, ranked, show)
    ensures (forall c :: c in ranked[..n] ==> AnchorPoolKey(c, show) != AnchorPoolKey(ranked[n], show)) ==>
      BestOfKey(before + [ranked[n]], ranked, show)
  {
    BeforeLast(ranked, n);
    RankedIsTotal();
    hide Ranked, AnchorPoolKey, SortedBy;
    assert forall c :: c in ranked ==> c in ranked[..n] || c == ranked[n];
    assert Ranked()(ranked[n], ranked[n]);
  }

  lemma {:induction false} PicksAreBestOfKey(ranked: seq<Candidate>, t: Tuning, show: Show)
    requires SortedBy(ranked, Ranked())
    ensures BestOfKey(Picks(ranked, t, show), ranked, show)
  {
    hide Ranked, AnchorPoolKey, Crowded, Keys, BestOfKey;
    if ranked == [] {
      NothingSelected(ranked, show);
    } else {
      var n := |ranked| - 1;
      BeforeLast(ranked, n);
      PicksAreBestOfKey(ranked[..n], t, show);
      PicksAreRanked(ranked[..n], t, show);
      BestOfKeyPush(Picks(ranked[..n], t, show), ranked, n, show);
      forall c | c in ranked[..n] ensures AnchorPoolKey(c, show) in Keys(ranked[..n], show) {
        KeyInKeys(ranked[..n], c, show);
      }
    }
  }

  lemma NothingSelected(from: seq<Candidate>, show: Show)
    ensures BestOfKey([], from, show)
  {}

  /** What holds when the candidates of `ranked` have been filled in after `first`. */
  ghost predicate FilledFrom(first: seq<Candidate>, selected: seq<Candidate>, ranked: seq<Candidate>, limit: nat, show: Show) {
    && first <= selected && |selected| <= limit && NoDup(Keys(selected, show))
    && (|selected| < limit ==> Represented(selected, ranked, show))
    && var filled := selected[|first|..];
       && PicksFrom(filled, ranked) && SortedBy(filled, Ranked())
       && BestOfKey(filled, ranked, show) && FilledByRank(filled, selected, ranked, show)
  }

  lemma FillSkips(first: seq<Candidate>, selected: seq<Candidate>, ranked: seq<Candidate>, n: nat, limit: nat, show: Show)
    requires SortedBy(ranked, Ranked()) && n + 1 == |ranked| && FilledFrom(first, selected, ranked[..n], limit, show)
    requires |selected| >= limit || AnchorPoolKey(ranked[n], show) in Keys(selected, show)
    ensures FilledFrom(first, selected, ranked, limit, show)
  {
    BeforeLast(ranked, n);
    BestOfKeyPush(selected[|first|..], ranked, n, show);
    hide Ranked, AnchorPoolKey, SortedBy, BestOfKey, NoDup, Keys;
    assert forall c :: c in ranked ==> c in ranked[..n] || c == ranked[n];
  }

  lemma FillPushes(first: seq<Candidate>, selected: seq<Candidate>, ranked: seq<Candidate>, n: nat, limit: nat, show: Show)
    requires SortedBy(ranked, Ranked()) && n + 1 == |ranked| && FilledFrom(first, selected, ranked[..n], limit, show)
    requires |selected| < limit && AnchorPoolKey(ranked[n], show) !in Keys(selected, show)
    ensures FilledFrom(first, selected + [ranked[n]], ranked, limit, show)
  {
    var c, filled := ranked[n], selected[|first|..];
    hide AnchorPoolKey;
    KeysPush(selected, c, show);
    NoDupPush(Keys(selected, show), AnchorPoolKey(c, show));
    assert (selected + [c])[|first|..] == filled + [c];
    BeforeLast(ranked, n);
    BestOfKeyPush(filled, ranked, n, show);
    hide Ranked, SortedBy, BestOfKey, NoDup, Keys;
    SortedPush(filled, c);
    assert forall x :: x in ranked ==> x in ranked[..n] || x == c;
    assert Represented(selected + [c], ranked, show);
  }

  lemma FillStarts(first: seq<Candidate>, limit: nat, show: Show)
    requires NoDup(Keys(first, show)) && |first| <= limit
    ensures FilledFrom(first, first, [], limit, show)
  {
    hide Ranked, AnchorPoolKey;
    assert first[|first|..] == [];
  }

  lemma {:induction false} FillFacts(first: seq<Candidate>, ranked: seq<Candidate>, limit: nat, show: Show)
    requires SortedBy(ranked, Ranked()) && NoDup(Keys(first, show)) && |first| <= limit
    ensures FilledFrom(first, FillUp(first, ranked, limit, show), ranked, limit, show)
  {
    hide Ranked, AnchorPoolKey, FilledFrom, NoDup, Keys;
    if ranked == [] {
      FillStarts(first, limit, show);
    } else {
      var n := |ranked| - 1;
      var before := FillUp(first, ranked[..n], limit, show);
      BeforeLast(ranked, n);
      FillFacts(first, ranked[..n], limit, show);
      if |before| >= limit || AnchorPoolKey(ranked[n], show) in Keys(before, show) {
        FillSkips(first, before, ranked, n, limit, show);
      } else {
        FillPushes(first, before, ranked, n, limit, show);
      }
    }
  }

  /** Once the number is reached, filling stops. */
  lemma {:induction false} FillStays(first: seq<Candidate>, ranked: seq<Candidate>, limit: nat, show: Show, n: nat)
    requires n <= |ranked| && |FillUp(first, ranked[..n], limit, show)| >= limit
    ensures FillUp(first, ranked, limit, show) == FillUp(first, ranked[..n], limit, show)
    decreases |ranked|
  {
    hide AnchorPoolKey;
    if n == |ranked| {
      assert ranked[..n] == ranked;
    } else {
      var m := |ranked| - 1;
      assert ranked[..m][..n] == ranked[..n];
      FillStays(first, ranked[..m], limit, show, n);
    }
  }

  /** The second pass. */
  method FillRotated(first: seq<Candidate>, ranked: seq<Candidate>, limit: nat, show: Show) returns (selected: seq<Candidate>)
    requires SortedBy(ranked, Ranked()) && NoDup(Keys(first, show)) && |first| <= limit
    ensures selected == FillUp(first, ranked, limit, show)
    ensures FilledFrom(first, selected, ranked, limit, show)
  {
    hide AnchorPoolKey, Keys, SortedBy, NoDup, FilledFrom;
    FillFacts(first, ranked, limit, show);
    selected := first;
    var pools := set key | key in Keys(first, show);
    for i := 0 to |ranked|
      invariant selected == FillUp(first, ranked[..i], limit, show)
      invariant forall key :: key in pools <==> key in Keys(selected, show)
    {
      if |selected| >= limit {
        FillStays(first, ranked, limit, show, i);
        return;
      }
      assert ranked[..i + 1][..i] == ranked[..i];
      var key := AnchorPoolKey(ranked[i], show);
      if key !in pools {
        KeysPush(selected, ranked[i], show);
        pools := pools + {key};
        selected := selected + [ranked[i]];
      }
    }
    assert ranked[..|ranked|] == ranked;
  }

  /** What the selection is, for the candidates in order of rank. */
  ghost predicate Selected(selected: seq<Candidate>, ranked: seq<Candidate>, t: Tuning, show: Show) {
    var picked := Picks(ranked, t, show);
    if !t.fillRotated || |picked| >= t.maxCandidates then selected == picked
    else FilledFrom(picked, selected, ranked, t.maxCandidates, show)
  }

  lemma SelectedFacts(selected: seq<Candidate>, ranked: seq<Candidate>, t: Tuning, show: Show)
    requires SortedBy(ranked, Ranked()) && Selected(selected, ranked, t, show)
    ensures PicksFrom(selected, ranked) && NoDup(Keys(selected, show)) && BestOfKey(selected, ranked, show)
    ensures |selected| <= Max(t.maxCandidates, 1)
    ensures ranked != [] ==> selected != [] && selected[0] == ranked[0]
    ensures t.fillRotated && |selected| < t.maxCandidates ==> Represented(selected, ranked, show)
  {
    hide Ranked, AnchorPoolKey, SortedBy, NoDup, WithinVariants, PassedOver, Keys, Picks, Represented, FilledByRank;
    var picked := Picks(ranked, t, show);
    FirstPassFacts(ranked, t, show);
    PicksAreBestOfKey(ranked, t, show);
    if selected != picked {
      assert selected == picked + selected[|picked|..];
    }
  }

  /** `finalize_candidates_with_tuning`: the best candidate first, no two with one anchor and pool
      cycle and of those with one the best, at most the configured number (but never none because of a
      zero); first the picks of the first pass, then, with filling on, the best of the cycles still
      missing, until the number is reached or every anchor and pool cycle that was offered is there. */
  method FinalizeCandidates(candidates: seq<Candidate>, t: Tuning, show: Show) returns (selected: seq<Candidate>)
    ensures PicksFrom(selected, candidates) && NoDup(Keys(selected, show)) && BestOfKey(selected, candidates, show)
    ensures |selected| <= Max(t.maxCandidates, 1)
    ensures candidates != [] ==> selected != [] && forall c :: c in candidates ==> Ranked()(selected[0], c)
    ensures Selected(selected, Sort(candidates, Ranked()), t, show)
    ensures t.fillRotated && |selected| < t.maxCandidates ==> Represented(selected, candidates, show)
  {
    hide Ranked, AnchorPoolKey, SortedBy, WithinVariants, NoDup, Keys, FilledFrom, PassedOver, Picks, FillUp;
    RankedIsTotal();
    SortSorts(candidates, Ranked());
    SortMembers(candidates, Ranked());
    var ranked := Sort(candidates, Ranked());
    FirstIsBest(ranked);
    selected := SelectRanked(ranked, t, show);
    if t.fillRotated && |selected| < t.maxCandidates {
      selected := FillRotated(selected, ranked, t.maxCandidates, show);
    }
    SelectedFacts(selected, ranked, t, show);
  }
}
