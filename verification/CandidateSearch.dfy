/** Joining prefix, changed edge and suffix into cycles (`src/detector/path_finder.rs`).

    The token policy and the capacity prefilter are the given predicate `allowed`; route
    capacity and quality are given numbers. */
module CandidateSearch {
  import opened Common
  import opened Sorting
  import opened GraphModel
  import opened PathSearch
  import opened CycleKeys
  import opened CandidateSelection
  import DistanceCache

  datatype Setup = Setup(g: GraphSnapshot, search: Search, show: Show, maxHops: nat, cutoff: int, tuning: Tuning,
                         allowed: (nat, seq<EdgeRef>) -> bool, routeCapacity: (nat, seq<EdgeRef>) -> nat,
                         routeQuality: (nat, seq<EdgeRef>) -> nat)

  ghost predicate ValidSetup(s: Setup) {
    && ValidSnapshot(s.g) && ValidSearch(s.search) && s.search.adjacency == s.g.ix.adjacency
    && FixedWidth(s.show, ADDRESS_WIDTH)
  }

  // ----- the changed pairs

  datatype ChangedPair = ChangedPair(from: nat, to: nat, ref: EdgeRef)

  predicate JoinsPair(adjacency: seq<seq<Edge>>, ref: EdgeRef, from: nat, to: nat) {
    Resolves(adjacency, ref) && adjacency[ref.from][ref.idx].from == from && adjacency[ref.from][ref.idx].to == to
  }

  /** `ref` is the cheapest changed edge of the pair. */
  ghost predicate CheapestChange(adjacency: seq<seq<Edge>>, changed: seq<EdgeRef>, from: nat, to: nat, ref: EdgeRef) {
    && ref in changed && JoinsPair(adjacency, ref, from, to)
    && forall other :: other in changed && JoinsPair(adjacency, other, from, to) ==> Cheaper(adjacency)(ref, other)
  }

  ghost predicate ChangeMap(adjacency: seq<seq<Edge>>, changed: seq<EdgeRef>, byPair: map<(nat, nat), EdgeRef>) {
    && (forall from: nat, to: nat :: (from, to) in byPair ==> CheapestChange(adjacency, changed, from, to, byPair[(from, to)]))
    && (forall ref, from: nat, to: nat :: ref in changed && JoinsPair(adjacency, ref, from, to) ==> (from, to) in byPair)
  }

  /** Each pair of a changed edge once, with its cheapest changed edge. */
  ghost predicate PairsOf(adjacency: seq<seq<Edge>>, changed: seq<EdgeRef>, pairs: seq<ChangedPair>) {
    && (forall p :: p in pairs ==> CheapestChange(adjacency, changed, p.from, p.to, p.ref))
    && (forall ref, from: nat, to: nat :: ref in changed && JoinsPair(adjacency, ref, from, to) ==>
          exists p :: p in pairs && p.from == from && p.to == to)
    && NoDup(pairs)
  }

  function PairLe(search: Search): (ChangedPair, ChangedPair) -> bool {
    (a: ChangedPair, b: ChangedPair) =>
      if Weight(search, a.ref) != Weight(search, b.ref) then Weight(search, a.ref) < Weight(search, b.ref)
      else if a.from != b.from then a.from < b.from
      else a.to <= b.to
  }

  /** Cheapest first; of equally cheap pairs the one with the lower source, then the lower target. */
  ghost predicate PairsInOrder(search: Search, pairs: seq<ChangedPair>) {
    forall i, j :: 0 <= i < j < |pairs| ==> NoLaterPair(search, pairs[i], pairs[j])
  }

  ghost predicate NoLaterPair(search: Search, a: ChangedPair, b: ChangedPair) {
    && Weight(search, a.ref) <= Weight(search, b.ref)
    && (Weight(search, a.ref) == Weight(search, b.ref) ==> a.from <= b.from && (a.from == b.from ==> a.to <= b.to))
  }

  lemma SortedPairsInOrder(search: Search, pairs: seq<ChangedPair>)
    requires SortedBy(pairs, PairLe(search))
    ensures PairsInOrder(search, pairs)
  {
    hide Weight;
    forall i, j | 0 <= i < j < |pairs| ensures NoLaterPair(search, pairs[i], pairs[j]) {
      assert PairLe(search)(pairs[i], pairs[j]);
    }
  }

  lemma ChangeStep(adjacency: seq<seq<Edge>>, changed: seq<EdgeRef>, i: nat, byPair: map<(nat, nat), EdgeRef>)
    requires i < |changed| && ChangeMap(adjacency, changed[..i], byPair)
    ensures var ref := changed[i];
      if !Resolves(adjacency, ref) then ChangeMap(adjacency, changed[..i + 1], byPair)
      else
        var key := (adjacency[ref.from][ref.idx].from, adjacency[ref.from][ref.idx].to);
        if key in byPair && Cheaper(adjacency)(byPair[key], ref) then ChangeMap(adjacency, changed[..i + 1], byPair)
        else ChangeMap(adjacency, changed[..i + 1], byPair[key := ref])
  {
    OrdersAreTotal(adjacency);
    hide Cheaper;
    assert changed[..i + 1] == changed[..i] + [changed[i]];
  }

  /** `changed_virtual_pairs` */
  method ChangedPairs(s: Setup, changed: seq<EdgeRef>) returns (pairs: seq<ChangedPair>)
    requires ValidSetup(s)
    ensures PairsOf(s.g.ix.adjacency, changed, pairs) && PairsInOrder(s.search, pairs)
  {
    hide Cheaper, ValidSetup, PairLe, PairsInOrder;
    var byPair: map<(nat, nat), EdgeRef> := map[];
    for i := 0 to |changed|
      invariant ChangeMap(s.g.ix.adjacency, changed[..i], byPair)
    {
      ChangeStep(s.g.ix.adjacency, changed, i, byPair);
      var edge := EdgeOf(s.g.ix.adjacency, changed[i]);
      if edge.None? {
        continue;
      }
      var key := (edge.value.from, edge.value.to);
      if key !in byPair || !Cheaper(s.g.ix.adjacency)(byPair[key], changed[i]) {
        byPair := byPair[key := changed[i]];
      }
    }
    assert changed[..|changed|] == changed;
    var listed := ListPairs(byPair);
    PairOrder(s.search);
    SortSorts(listed, PairLe(s.search));
    SortMembers(listed, PairLe(s.search));
    SortKeeps(listed, PairLe(s.search));
    pairs := Sort(listed, PairLe(s.search));
    NoDupPermuted(listed, pairs);
    SortedPairsInOrder(s.search, pairs);
    ListedPairs(s.g.ix.adjacency, changed, byPair, pairs);
  }

  lemma PairOrder(search: Search)
    ensures TotalPreorder(PairLe(search))
  {
    hide Weight;
  }

  /** The entries of the map, in whatever order it yields them. */
  method ListPairs(byPair: map<(nat, nat), EdgeRef>) returns (pairs: seq<ChangedPair>)
    ensures forall p :: p in pairs <==> (p.from, p.to) in byPair && byPair[(p.from, p.to)] == p.ref
    ensures NoDup(pairs)
  {
    pairs := [];
    var rest := byPair.Keys;
    while rest != {}
      invariant rest <= byPair.Keys && NoDup(pairs)
      invariant forall p :: p in pairs <==> (p.from, p.to) in byPair.Keys - rest && byPair[(p.from, p.to)] == p.ref
      decreases rest
    {
      var key :| key in rest;
      rest := rest - {key};
      pairs := pairs + [ChangedPair(key.0, key.1, byPair[key])];
    }
  }

  lemma ListedPairs(adjacency: seq<seq<Edge>>, changed: seq<EdgeRef>, byPair: map<(nat, nat), EdgeRef>,
                    pairs: seq<ChangedPair>)
    requires ChangeMap(adjacency, changed, byPair) && NoDup(pairs)
    requires forall p :: p in pairs <==> (p.from, p.to) in byPair && byPair[(p.from, p.to)] == p.ref
    ensures PairsOf(adjacency, changed, pairs)
  {
    hide Cheaper;
    forall ref, from, to | ref in changed && JoinsPair(adjacency, ref, from, to)
      ensures exists p :: p in pairs && p.from == from && p.to == to
    {
      assert ChangedPair(from, to, byPair[(from, to)]) in pairs;
    }
  }

  // ----- the candidate edges of a pair

  function UsableOnly(search: Search, refs: seq<EdgeRef>): seq<EdgeRef> {
    if refs == [] then []
    else UsableOnly(search, refs[..|refs| - 1]) + (if UsableRef(search, refs[|refs| - 1]) then [refs[|refs| - 1]] else [])
  }

  function UsablePairEdges(s: Setup, from: nat, to: nat): seq<EdgeRef> {
    UsableOnly(s.search, Entry(s.g.ix.pairToEdges, (from, to)))
  }

  /** `candidate_pair_edges` */
  function CandidatePairEdges(s: Setup, from: nat, to: nat): seq<EdgeRef> {
    Take(Sort(UsablePairEdges(s, from, to), Cheaper(s.search.adjacency)), s.search.limits.pairEdges)
  }

  lemma {:induction false} UsableOnlyMembers(search: Search, refs: seq<EdgeRef>)
    ensures forall ref :: ref in UsableOnly(search, refs) <==> ref in refs && UsableRef(search, ref)
  {
    if refs != [] {
      UsableOnlyMembers(search, refs[..|refs| - 1]);
      assert refs == refs[..|refs| - 1] + [refs[|refs| - 1]];
    }
  }

  /** The pair index leads to usable edges of the pair, and to all of them unless the limit cuts. */
  lemma PairEdgesAreHops(s: Setup, from: nat, to: nat, ref: EdgeRef)
    requires ValidSetup(s)
    ensures ref in CandidatePairEdges(s, from, to) ==> IsHop(s.search, ref, from, to)
    ensures |UsablePairEdges(s, from, to)| <= s.search.limits.pairEdges && IsHop(s.search, ref, from, to) ==>
            ref in CandidatePairEdges(s, from, to)
  {
    var view, usable := Entry(s.g.ix.pairToEdges, (from, to)), UsablePairEdges(s, from, to);
    PairView(s, from, to, ref);
    hide ValidSetup, Cheaper, Usable;
    UsableOnlyMembers(s.search, view);
    SortMembers(usable, Cheaper(s.search.adjacency));
    var sorted := Sort(usable, Cheaper(s.search.adjacency));
    assert forall x :: x in Take(sorted, s.search.limits.pairEdges) ==> x in sorted;
    if |usable| <= s.search.limits.pairEdges {
      assert Take(sorted, s.search.limits.pairEdges) == sorted;
    }
  }

  /** The pair index lists exactly the edges of the pair. */
  lemma PairView(s: Setup, from: nat, to: nat, ref: EdgeRef)
    requires ValidSetup(s)
    ensures IsHop(s.search, ref, from, to) <==> ref in Entry(s.g.ix.pairToEdges, (from, to)) && UsableRef(s.search, ref)
  {
    var view := Entry(s.g.ix.pairToEdges, (from, to));
    assert ExactView(s.g.ix.adjacency, view, ByPair(from, to));
    assert ref in view <==> Resolves(s.g.ix.adjacency, ref) && Matches(ByPair(from, to), s.g.ix.adjacency[ref.from][ref.idx]);
    hide ExactView, Usable, ValidSnapshot, FixedWidth;
  }

  /** The limit keeps the cheapest. */
  lemma LimitKeepsCheapest(s: Setup, from: nat, to: nat, ref: EdgeRef)
    requires ValidSetup(s)
    ensures |CandidatePairEdges(s, from, to)| <= s.search.limits.pairEdges
    ensures IsHop(s.search, ref, from, to) && ref !in CandidatePairEdges(s, from, to) ==>
      && |CandidatePairEdges(s, from, to)| == s.search.limits.pairEdges
      && forall kept :: kept in CandidatePairEdges(s, from, to) ==> NoDearerRef(s.search, kept, ref)
  {
    var view, usable := Entry(s.g.ix.pairToEdges, (from, to)), UsablePairEdges(s, from, to);
    PairView(s, from, to, ref);
    UsableOnlyMembers(s.search, view);
    hide ValidSetup, Usable, UsableOnly, NoDearerRef;
    SortMembers(usable, Cheaper(s.search.adjacency));
    OrdersAreTotal(s.search.adjacency);
    hide Cheaper;
    SortSorts(usable, Cheaper(s.search.adjacency));
    TakeBest(Sort(usable, Cheaper(s.search.adjacency)), s.search.limits.pairEdges, Cheaper(s.search.adjacency), ref);
    forall kept | kept in usable && ref in usable && Cheaper(s.search.adjacency)(kept, ref) ensures NoDearerRef(s.search, kept, ref) {
      HopsCompare(s.search, kept, ref);
    }
  }

  // ----- routes

  /** A cycle of hops through an anchor; `at` is the place of the changed pair. */
  datatype Route = Route(anchor: nat, refs: seq<EdgeRef>, tokens: seq<nat>, at: nat)

  /** The hops join up, start and end at the anchor, and repeat no other token. */
  ghost predicate IsCycle(search: Search, r: Route) {
    && |r.tokens| == |r.refs| + 1 && r.refs != []
    && r.tokens[0] == r.anchor == r.tokens[|r.refs|]
    && NoDup(r.tokens[..|r.refs|])
    && (forall i :: 0 <= i < |r.refs| ==> IsHop(search, r.refs[i], r.tokens[i], r.tokens[i + 1]))
  }

  function RouteScore(search: Search, r: Route): int
    requires r.at < |r.refs|
  {
    SatAddI64(SatAddI64(TotalWeight(search, r.refs[..r.at]), Weight(search, r.refs[r.at])),
              TotalWeight(search, r.refs[r.at + 1..]))
  }

  /** While no partial sum of the route or of what follows the changed hop leaves 64 bits, the score of a route is the sum of its weights. */
  lemma RouteScoreIsSum(search: Search, r: Route)
    requires r.at < |r.refs|
    requires SumsFit(search, r.refs) && SumsFit(search, r.refs[r.at + 1..])
    ensures RouteScore(search, r) == PlainWeight(search, r.refs)
  {
    var prefix, hop, suffix := r.refs[..r.at], r.refs[r.at], r.refs[r.at + 1..];
    PrefixFits(search, r.refs, r.at);
    PrefixFits(search, r.refs, |r.refs|);
    PrefixFits(search, r.refs, r.at + 1);
    hide Weight, SumsFit, TotalWeight, PlainWeight;
    ScoreIsSum(search, prefix);
    ScoreIsSum(search, suffix);
    assert r.refs[..r.at + 1] == prefix + [hop] && r.refs == prefix + [hop] + suffix && r.refs[..|r.refs|] == r.refs;
    PlainPush(search, prefix, hop);
    PlainAppend(search, prefix + [hop], suffix);
  }

  lemma PrefixFits(search: Search, refs: seq<EdgeRef>, n: nat)
    requires SumsFit(search, refs) && n <= |refs|
    ensures SumsFit(search, refs[..n]) && I64_MIN <= PlainWeight(search, refs[..n]) <= I64_MAX
  {
    hide PlainWeight;
    forall i | 0 <= i <= n ensures I64_MIN <= PlainWeight(search, refs[..n][..i]) <= I64_MAX {
      assert refs[..n][..i] == refs[..i];
    }
  }

  lemma {:induction false} PlainAppend(search: Search, a: seq<EdgeRef>, b: seq<EdgeRef>)
    ensures PlainWeight(search, a + b) == PlainWeight(search, a) + PlainWeight(search, b)
  {
    hide Weight;
    if a == [] {
      assert a + b == b;
    } else {
      assert (a + b)[1..] == a[1..] + b;
      PlainAppend(search, a[1..], b);
    }
  }

  ghost predicate PairChanged(adjacency: seq<seq<Edge>>, changed: seq<EdgeRef>, from: nat, to: nat) {
    exists ref :: ref in changed && JoinsPair(adjacency, ref, from, to)
  }

  ghost predicate SoundRoute(s: Setup, changed: seq<EdgeRef>, r: Route) {
    && r.anchor in s.g.anchors && IsCycle(s.search, r)
    && 2 <= |r.refs| <= s.maxHops && r.at < |r.refs|
    && PairChanged(s.g.ix.adjacency, changed, r.tokens[r.at], r.tokens[r.at + 1])
    && RouteScore(s.search, r) < s.cutoff
  }

  function HopOf(g: GraphSnapshot, ref: EdgeRef): Option<Hop> {
    var edge :- EdgeOf(g.ix.adjacency, ref);
    if edge.from < |g.tokens| && edge.to < |g.tokens| then
      Some(Hop(g.tokens[edge.from].address, g.tokens[edge.to].address, edge.poolId))
    else None
  }

  function RouteHops(g: GraphSnapshot, refs: seq<EdgeRef>): seq<Hop> {
    if refs == [] then []
    else
      var hop := HopOf(g, refs[|refs| - 1]);
      RouteHops(g, refs[..|refs| - 1]) + (if hop.Some? then [hop.value] else [])
  }

  /** `route_cycle_key` */
  function RouteKey(s: Setup, refs: seq<EdgeRef>): string {
    Join(HopEntries(RouteHops(s.g, refs), s.show), '|')
  }

  function CandidateOf(s: Setup, r: Route): Candidate
    requires r.anchor < |s.g.tokens| && r.at < |r.refs|
  {
    Candidate(s.g.tokens[r.anchor].address, RouteScore(s.search, r), s.routeCapacity(r.anchor, r.refs),
              s.routeQuality(r.anchor, r.refs), RouteKey(s, r.refs), RouteHops(s.g, r.refs))
  }

  lemma RouteAnchor(s: Setup, changed: seq<EdgeRef>, r: Route)
    requires ValidSetup(s) && SoundRoute(s, changed, r)
    ensures r.anchor < |s.g.tokens|
  {
    hide IsCycle, IndexesAgree, PairChanged;
  }

  ghost predicate Describes(s: Setup, r: Route, c: Candidate) {
    r.anchor < |s.g.tokens| && r.at < |r.refs| && c == CandidateOf(s, r)
  }

  /** The candidate stands for an allowed sound route. */
  ghost predicate SoundCandidate(s: Setup, changed: seq<EdgeRef>, c: Candidate) {
    exists r :: SoundRoute(s, changed, r) && s.allowed(r.anchor, r.refs) && Describes(s, r, c)
  }

  /** A resolving edge is a hop between the addresses of its tokens. */
  lemma HopResolves(s: Setup, ref: EdgeRef)
    requires ValidSetup(s) && Resolves(s.g.ix.adjacency, ref)
    ensures var edge := s.g.ix.adjacency[ref.from][ref.idx];
      && edge.from < |s.g.tokens| && edge.to < |s.g.tokens|
      && HopOf(s.g, ref) == Some(Hop(s.g.tokens[edge.from].address, s.g.tokens[edge.to].address, edge.poolId))
  {
    PlacedWell(s);
    hide ValidSetup;
  }

  lemma HopsPush(g: GraphSnapshot, refs: seq<EdgeRef>, ref: EdgeRef)
    requires HopOf(g, ref).Some?
    ensures RouteHops(g, refs + [ref]) == RouteHops(g, refs) + [HopOf(g, ref).value]
  {
    assert (refs + [ref])[..|refs|] == refs;
    hide HopOf;
  }

  lemma {:induction false} HopsInOrder(s: Setup, refs: seq<EdgeRef>)
    requires ValidSetup(s) && forall i :: 0 <= i < |refs| ==> Resolves(s.g.ix.adjacency, refs[i])
    ensures |RouteHops(s.g, refs)| == |refs|
    ensures forall i :: 0 <= i < |refs| ==> HopOf(s.g, refs[i]) == Some(RouteHops(s.g, refs)[i])
  {
    if refs != [] {
      hide ValidSetup, HopOf;
      var init, last := refs[..|refs| - 1], refs[|refs| - 1];
      HopsInOrder(s, init);
      HopResolves(s, last);
      assert refs == init + [last];
      HopsPush(s.g, init, last);
      hide RouteHops;
      InOrderPush(s.g, init, RouteHops(s.g, init), last, HopOf(s.g, last).value);
    }
  }

  lemma InOrderPush(g: GraphSnapshot, refs: seq<EdgeRef>, hops: seq<Hop>, ref: EdgeRef, hop: Hop)
    requires |hops| == |refs| && forall i :: 0 <= i < |refs| ==> HopOf(g, refs[i]) == Some(hops[i])
    requires HopOf(g, ref) == Some(hop)
    ensures forall i :: 0 <= i < |refs + [ref]| ==> HopOf(g, (refs + [ref])[i]) == Some((hops + [hop])[i])
  {
    hide HopOf;
  }

  // ----- joining three parts

  function Joined(p: SearchPath, ref: EdgeRef, q: SearchPath): seq<EdgeRef> {
    p.refs + [ref] + q.refs
  }

  function JoinedTokens(p: SearchPath, to: nat, q: SearchPath): seq<nat> {
    p.tokens + [to] + q.tokens[Min(1, |q.tokens|)..]
  }

  ghost predicate ClosesSimply(tokens: seq<nat>) {
    |tokens| >= 3 && tokens[0] == tokens[|tokens| - 1] && NoDup(tokens[..|tokens| - 1])
  }

  /** `forms_simple_cycle` */
  method FormsSimpleCycle(p: SearchPath, to: nat, q: SearchPath) returns (simple: bool)
    ensures simple <==> ClosesSimply(JoinedTokens(p, to, q))
  {
    var tokens := JoinedTokens(p, to, q);
    if |tokens| < 3 || tokens[0] != tokens[|tokens| - 1] {
      return false;
    }
    ghost var open := tokens[..|tokens| - 1];
    var seen: set<nat> := {};
    for i := 0 to |tokens| - 1
      invariant NoDup(open[..i])
      invariant forall x :: x in seen <==> x in open[..i]
    {
      assert open[..i + 1] == open[..i] + [tokens[i]];
      if tokens[i] in seen {
        ghost var j :| 0 <= j < i && open[..i][j] == tokens[i];
        assert open[j] == open[i];
        return false;
      }
      NoDupPush(open[..i], tokens[i]);
      seen := seen + {tokens[i]};
    }
    assert open[..|open|] == open;
    simple := true;
  }

  function JoinScore(s: Setup, p: SearchPath, ref: EdgeRef, q: SearchPath): int {
    SatAddI64(SatAddI64(p.score, Weight(s.search, ref)), q.score)
  }

  ghost predicate Joinable(s: Setup, to: nat, p: SearchPath, ref: EdgeRef, q: SearchPath) {
    && 2 <= |Joined(p, ref, q)| <= s.maxHops
    && ClosesSimply(JoinedTokens(p, to, q))
    && JoinScore(s, p, ref, q) < s.cutoff
  }

  function JoinedRoute(anchor: nat, p: SearchPath, ref: EdgeRef, to: nat, q: SearchPath): Route {
    Route(anchor, Joined(p, ref, q), JoinedTokens(p, to, q), |p.refs|)
  }

  ghost predicate Parts(s: Setup, anchor: nat, from: nat, to: nat, p: SearchPath, ref: EdgeRef, q: SearchPath) {
    && SimplePath(s.search, anchor, p) && Node(p) == from
    && IsHop(s.search, ref, from, to)
    && SimplePath(s.search, to, q) && Node(q) == anchor
  }

  lemma JoinedHops(s: Setup, anchor: nat, from: nat, to: nat, p: SearchPath, ref: EdgeRef, q: SearchPath, i: nat)
    requires Parts(s, anchor, from, to, p, ref, q) && i < |Joined(p, ref, q)|
    ensures |JoinedTokens(p, to, q)| == |Joined(p, ref, q)| + 1
    ensures IsHop(s.search, Joined(p, ref, q)[i], JoinedTokens(p, to, q)[i], JoinedTokens(p, to, q)[i + 1])
  {
    hide IsHop, NoDup;
    var k := |p.refs|;
    assert JoinedTokens(p, to, q) == p.tokens + q.tokens;
    if i < k {
      assert IsHop(s.search, p.refs[i], p.tokens[i], p.tokens[i + 1]);
    } else if i > k {
      assert IsHop(s.search, q.refs[i - k - 1], q.tokens[i - k - 1], q.tokens[i - k]);
    }
  }

  lemma JoinedScore(s: Setup, anchor: nat, from: nat, to: nat, p: SearchPath, ref: EdgeRef, q: SearchPath)
    requires Parts(s, anchor, from, to, p, ref, q)
    ensures var r := JoinedRoute(anchor, p, ref, to, q);
      r.at < |r.refs| && RouteScore(s.search, r) == JoinScore(s, p, ref, q)
  {
    hide IsHop, NoDup, TotalWeight, Narrowest, Weight;
    var r := JoinedRoute(anchor, p, ref, to, q);
    assert r.refs[..r.at] == p.refs && r.refs[r.at + 1..] == q.refs;
  }

  lemma JoinedEnds(s: Setup, anchor: nat, from: nat, to: nat, p: SearchPath, ref: EdgeRef, q: SearchPath)
    requires Parts(s, anchor, from, to, p, ref, q)
    ensures var tokens := JoinedTokens(p, to, q);
      && |tokens| == |Joined(p, ref, q)| + 1 && |p.refs| < |Joined(p, ref, q)|
      && tokens[0] == anchor && tokens[|tokens| - 1] == anchor
  {
    hide IsHop, NoDup, TotalWeight, Narrowest;
    assert JoinedTokens(p, to, q) == p.tokens + q.tokens;
  }

  lemma JoinIsCycle(s: Setup, anchor: nat, from: nat, to: nat, p: SearchPath, ref: EdgeRef, q: SearchPath)
    requires Parts(s, anchor, from, to, p, ref, q) && ClosesSimply(JoinedTokens(p, to, q))
    ensures var r := JoinedRoute(anchor, p, ref, to, q);
      IsCycle(s.search, r) && r.tokens[r.at] == from && r.tokens[r.at + 1] == to
  {
    hide Parts, IsHop, NoDup, Joined, JoinedTokens;
    var r := JoinedRoute(anchor, p, ref, to, q);
    JoinedEnds(s, anchor, from, to, p, ref, q);
    PairOfJoin(s, anchor, from, to, p, ref, q);
    forall i | 0 <= i < |r.refs| ensures IsHop(s.search, r.refs[i], r.tokens[i], r.tokens[i + 1]) {
      JoinedHops(s, anchor, from, to, p, ref, q, i);
    }
  }

  /** What joins is a sound route with the joined score. */
  lemma JoinIsSound(s: Setup, changed: seq<EdgeRef>, anchor: nat, from: nat, to: nat,
                    p: SearchPath, ref: EdgeRef, q: SearchPath)
    requires anchor in s.g.anchors && Parts(s, anchor, from, to, p, ref, q) && Joinable(s, to, p, ref, q)
    requires PairChanged(s.g.ix.adjacency, changed, from, to)
    ensures var r := JoinedRoute(anchor, p, ref, to, q);
      SoundRoute(s, changed, r) && RouteScore(s.search, r) == JoinScore(s, p, ref, q)
  {
    hide Parts, PairChanged, IsCycle, ClosesSimply, RouteScore, JoinScore, JoinedTokens;
    JoinedScore(s, anchor, from, to, p, ref, q);
    JoinIsCycle(s, anchor, from, to, p, ref, q);
  }

  // ----- taking a route apart

  function PathAlong(search: Search, refs: seq<EdgeRef>, tokens: seq<nat>): SearchPath {
    SearchPath(refs, tokens, TotalWeight(search, refs), Narrowest(search, refs))
  }

  function Prefix(search: Search, r: Route): SearchPath
    requires r.at < |r.refs| && |r.tokens| == |r.refs| + 1
  {
    PathAlong(search, r.refs[..r.at], r.tokens[..r.at + 1])
  }

  function Suffix(search: Search, r: Route): SearchPath
    requires r.at < |r.refs| && |r.tokens| == |r.refs| + 1
  {
    PathAlong(search, r.refs[r.at + 1..], r.tokens[r.at + 1..])
  }

  lemma PrefixIsPath(search: Search, r: Route)
    requires IsCycle(search, r) && r.at < |r.refs|
    ensures SimplePath(search, r.anchor, Prefix(search, r)) && Node(Prefix(search, r)) == r.tokens[r.at]
  {
    var p, open := Prefix(search, r), r.tokens[..|r.refs|];
    forall i, j | 0 <= i < j < |p.tokens| ensures p.tokens[i] != p.tokens[j] {
      assert open[i] != open[j];
    }
    hide IsHop;
    forall i | 0 <= i < |p.refs| ensures IsHop(search, p.refs[i], p.tokens[i], p.tokens[i + 1]) {
      assert IsHop(search, r.refs[i], r.tokens[i], r.tokens[i + 1]);
    }
  }

  lemma SuffixIsPath(search: Search, r: Route)
    requires IsCycle(search, r) && r.at < |r.refs|
    ensures SimplePath(search, r.tokens[r.at + 1], Suffix(search, r)) && Node(Suffix(search, r)) == r.anchor
  {
    var q, open, n := Suffix(search, r), r.tokens[..|r.refs|], r.at + 1;
    forall i, j | 0 <= i < j < |q.tokens| ensures q.tokens[i] != q.tokens[j] {
      assert q.tokens[i] == open[n + i];
      if n + j < |r.refs| {
        assert open[n + i] != open[n + j];
      } else {
        assert open[0] != open[n + i];
      }
    }
    hide IsHop;
    forall i | 0 <= i < |q.refs| ensures IsHop(search, q.refs[i], q.tokens[i], q.tokens[i + 1]) {
      assert IsHop(search, r.refs[n + i], r.tokens[n + i], r.tokens[n + i + 1]);
    }
  }

  lemma SplitTokens(search: Search, r: Route)
    requires r.at < |r.refs| && |r.tokens| == |r.refs| + 1
    ensures var p, q, to := Prefix(search, r), Suffix(search, r), r.tokens[r.at + 1];
      JoinedTokens(p, to, q) == r.tokens && Joined(p, r.refs[r.at], q) == r.refs && |p.refs| == r.at
  {
    hide TotalWeight, Narrowest;
    var p, q, to := Prefix(search, r), Suffix(search, r), r.tokens[r.at + 1];
    CutAndJoin(r.refs, r.at);
    CutAndJoin(r.tokens, r.at + 1);
    assert q.tokens[1..] == r.tokens[r.at + 2..];
  }

  lemma CutAndJoin<T>(s: seq<T>, i: nat)
    requires i < |s|
    ensures s[..i] + [s[i]] + s[i + 1..] == s
  {}

  /** The score of the joined parts is that of the route. */
  lemma PartScores(s: Setup, r: Route)
    requires r.at < |r.refs| && |r.tokens| == |r.refs| + 1
    ensures JoinScore(s, Prefix(s.search, r), r.refs[r.at], Suffix(s.search, r)) == RouteScore(s.search, r)
  {
    hide TotalWeight, Narrowest, Weight;
  }

  lemma RouteCloses(s: Setup, changed: seq<EdgeRef>, r: Route)
    requires SoundRoute(s, changed, r)
    ensures r.at < |r.refs| && |r.tokens| == |r.refs| + 1 && 2 <= |r.refs| <= s.maxHops && ClosesSimply(r.tokens)
    ensures IsHop(s.search, r.refs[r.at], r.tokens[r.at], r.tokens[r.at + 1]) && RouteScore(s.search, r) < s.cutoff
  {
    hide IsHop, PairChanged, NoDup, RouteScore;
  }

  /** A route is what its three parts join to. */
  lemma RouteFromParts(s: Setup, changed: seq<EdgeRef>, r: Route)
    requires SoundRoute(s, changed, r)
    ensures var p, q, to := Prefix(s.search, r), Suffix(s.search, r), r.tokens[r.at + 1];
      && JoinedRoute(r.anchor, p, r.refs[r.at], to, q) == r
      && Joinable(s, to, p, r.refs[r.at], q)
      && IsHop(s.search, r.refs[r.at], r.tokens[r.at], to)
  {
    RouteCloses(s, changed, r);
    hide SoundRoute, IsHop, ClosesSimply, JoinScore, RouteScore, Prefix, Suffix, Joined, JoinedTokens;
    SplitTokens(s.search, r);
    PartScores(s, r);
  }

  /** The limits cut neither search on this side of the cycle nor its result. */
  ghost predicate SideFits(search: Search, start: nat, target: nat, maxHops: nat) {
    start != target ==>
      NothingCut(search, target, [StartPath(start)], maxHops) && |TopPaths(search, start, target, maxHops)| < search.limits.topK
  }

  predicate Shaped(r: Route) {
    |r.tokens| == |r.refs| + 1 && r.at < |r.refs|
  }

  ghost predicate Findable(s: Setup, r: Route) {
    Shaped(r) &&
    var from, to := r.tokens[r.at], r.tokens[r.at + 1];
    && |UsablePairEdges(s, from, to)| <= s.search.limits.pairEdges
    && SideFits(s.search, r.anchor, from, SatSub(s.maxHops, 1))
    && SideFits(s.search, to, r.anchor, SatSub(s.maxHops, 1))
  }

  lemma SideIsFound(search: Search, start: nat, target: nat, maxHops: nat, p: SearchPath)
    requires ValidSearch(search) && SideFits(search, start, target, maxHops)
    requires PathTo(search, start, target, maxHops, p)
    ensures p in TopPaths(search, start, target, maxHops)
  {
    hide NothingCut, ValidSearch, Rounds;
    if start == target {
      assert p.tokens[0] == start && p.tokens[|p.tokens| - 1] == start;
      assert |p.tokens| == 1;
      assert p == StartPath(start);
    } else {
      TopPathsComplete(search, start, target, maxHops, p);
    }
  }

  /** The three parts of a findable route are all found. */
  lemma PartsAreFound(s: Setup, changed: seq<EdgeRef>, r: Route)
    requires ValidSetup(s) && SoundRoute(s, changed, r) && Findable(s, r)
    ensures var from, to, n := r.tokens[r.at], r.tokens[r.at + 1], SatSub(s.maxHops, 1);
      && Prefix(s.search, r) in TopPaths(s.search, r.anchor, from, n)
      && r.refs[r.at] in CandidatePairEdges(s, from, to)
      && Suffix(s.search, r) in TopPaths(s.search, to, r.anchor, n)
  {
    hide ValidSnapshot, ValidSearch, IsHop, SideFits, PairChanged, SimplePath, CandidatePairEdges, UsablePairEdges, Weight;
    var from, to, n := r.tokens[r.at], r.tokens[r.at + 1], SatSub(s.maxHops, 1);
    PrefixIsPath(s.search, r);
    SuffixIsPath(s.search, r);
    SideIsFound(s.search, r.anchor, from, n, Prefix(s.search, r));
    SideIsFound(s.search, to, r.anchor, n, Suffix(s.search, r));
    PairEdgesAreHops(s, from, to, r.refs[r.at]);
  }

  // ----- the reachability skip

  lemma TokenInGraph(s: Setup, r: Route, k: nat)
    requires ValidSetup(s) && IsCycle(s.search, r) && k < |r.tokens|
    ensures r.tokens[k] < |s.g.ix.adjacency|
    ensures k < |r.refs| ==> r.tokens[k + 1] in DistanceCache.Successors(s.g)[r.tokens[k]]
  {
    assert WellPlaced(s.g.ix.adjacency);
    hide ValidSetup, NoDup, DistanceCache.Successors, IsHop;
    var at := if k < |r.refs| then k else k - 1;
    assert IsHop(s.search, r.refs[at], r.tokens[at], r.tokens[at + 1]);
    HopIsNext(s, r.refs[at], r.tokens[at], r.tokens[at + 1]);
  }

  lemma CycleSize(s: Setup, r: Route)
    requires IsCycle(s.search, r)
    ensures |DistanceCache.Successors(s.g)| == |s.g.ix.adjacency| && |r.tokens| == |r.refs| + 1
  {}

  lemma WalkAlong(s: Setup, r: Route, i: nat, j: nat)
    requires ValidSetup(s) && IsCycle(s.search, r) && i <= j < |r.tokens|
    ensures DistanceCache.IsWalkBetween(DistanceCache.Successors(s.g), r.tokens[i..j + 1], r.tokens[i], r.tokens[j])
  {
    var next, p := DistanceCache.Successors(s.g), r.tokens[i..j + 1];
    CycleSize(s, r);
    hide ValidSetup, IsCycle, DistanceCache.Successors, DistanceCache.IsWalkBetween;
    forall k | 0 <= k < |p|
      ensures p[k] < |next| && (k + 1 < |p| ==> p[k + 1] in next[p[k]])
    {
      TokenInGraph(s, r, i + k);
      assert p[k] == r.tokens[i + k] && (k + 1 < |p| ==> p[k + 1] == r.tokens[i + k + 1]);
    }
    IsWalkAlong(next, p);
  }

  lemma IsWalkAlong(next: seq<seq<nat>>, p: seq<nat>)
    requires p != [] && forall k :: 0 <= k < |p| ==> p[k] < |next| && (k + 1 < |p| ==> p[k + 1] in next[p[k]])
    ensures DistanceCache.IsWalkBetween(next, p, p[0], p[|p| - 1])
  {}

  lemma HopIsNext(s: Setup, ref: EdgeRef, from: nat, to: nat)
    requires s.search.adjacency == s.g.ix.adjacency && WellPlaced(s.g.ix.adjacency) && IsHop(s.search, ref, from, to)
    ensures from < |s.g.ix.adjacency| && to < |s.g.ix.adjacency| && to in DistanceCache.Successors(s.g)[from]
  {
    assert DistanceCache.Successors(s.g)[from][ref.idx] == to;
  }

  /** The skip of pairs no anchor reaches, or that reach no anchor, drops no changed pair that lies
      on a cycle through an anchor. */
  lemma SkipDropsNoCycle(s: Setup, r: Route)
    requires ValidSetup(s) && r.anchor in s.g.anchors && IsCycle(s.search, r) && r.at < |r.refs|
    ensures DistanceCache.FromSomeAnchor(s.g, r.tokens[r.at])
    ensures DistanceCache.ToSomeAnchor(s.g, r.tokens[r.at + 1])
  {
    WalkAlong(s, r, 0, r.at);
    WalkAlong(s, r, r.at + 1, |r.refs|);
    CycleAnchor(s, r);
    hide ValidSetup, IsCycle, DistanceCache.IsWalkBetween, DistanceCache.Successors;
    assert DistanceCache.Reaches(DistanceCache.Successors(s.g), r.anchor, r.tokens[r.at]);
    assert DistanceCache.Reaches(DistanceCache.Successors(s.g), r.tokens[r.at + 1], r.anchor);
  }

  lemma CycleAnchor(s: Setup, r: Route)
    requires IsCycle(s.search, r)
    ensures |r.tokens| == |r.refs| + 1 && r.tokens[0] == r.anchor == r.tokens[|r.refs|]
  {
    hide IsHop, NoDup;
  }

  // ----- collecting candidates

  /** The local state of the search: plain candidates or variants per token path, and the keys seen. */
  datatype Collected = Collected(candidates: seq<Candidate>, tokenPaths: map<string, seq<Candidate>>,
                                 tokenPathCount: nat, seen: set<string>)

  /** `candidate_selection_budget` */
  function SelectionBudget(t: Tuning): nat {
    Min(t.maxCandidates * Max(t.budgetMultiplier, 1), U64_MAX)
  }

  /** The budget is the number of candidates, and as many more for every further unit of the multiplier, as far as
      64 bits go. */
  lemma BudgetGrows(t: Tuning)
    ensures t.budgetMultiplier <= 1 ==> SelectionBudget(t) == Min(t.maxCandidates, U64_MAX)
    ensures t.budgetMultiplier > 1 ==>
      SelectionBudget(t) == Min(SelectionBudget(t.(budgetMultiplier := t.budgetMultiplier - 1)) + t.maxCandidates, U64_MAX)
  {
    if t.budgetMultiplier > 1 {
      assert t.maxCandidates * t.budgetMultiplier == t.maxCandidates * (t.budgetMultiplier - 1) + t.maxCandidates;
    }
  }

  /** In the entry, or kept out of it by a full number of others that rank no lower. */
  ghost predicate HeldOrBeaten(entry: seq<Candidate>, limit: nat, c: Candidate) {
    c in entry || (|entry| == limit && forall x :: x in entry ==> Ranked()(x, c))
  }

  ghost predicate HeldUnder(s: Setup, tokenPaths: map<string, seq<Candidate>>, key: string, c: Candidate) {
    HeldOrBeaten(Entry(tokenPaths, key), Max(s.tuning.poolVariants, 1), c)
  }

  ghost predicate Kept(s: Setup, k: Collected, c: Candidate) {
    if s.tuning.dedupTokenPaths then HeldUnder(s, k.tokenPaths, TokenPathKey(c, s.show), c) else c in k.candidates
  }

  /** A route with this key was looked at, and kept if it is allowed. */
  ghost predicate Settled(s: Setup, changed: seq<EdgeRef>, k: Collected, key: string) {
    exists r, c ::
      && SoundRoute(s, changed, r) && Describes(s, r, c) && c.cycleKey == key
      && (s.allowed(r.anchor, r.refs) ==> Kept(s, k, c))
  }

  ghost predicate SoundVariants(s: Setup, changed: seq<EdgeRef>, key: string, variants: seq<Candidate>) {
    && variants != [] && |variants| <= Max(s.tuning.poolVariants, 1) && SortedBy(variants, Ranked())
    && forall c :: c in variants ==> SoundCandidate(s, changed, c) && TokenPathKey(c, s.show) == key
  }

  ghost predicate CollectedSound(s: Setup, changed: seq<EdgeRef>, k: Collected) {
    && (forall c :: c in k.candidates ==> SoundCandidate(s, changed, c))
    && (forall key :: key in k.tokenPaths ==> SoundVariants(s, changed, key, k.tokenPaths[key]))
    && (forall key :: key in k.seen ==> Settled(s, changed, k, key))
    && CountsStored(k)
    && Count(s, k) <= |AllowedKeys(s, changed, k.seen)|
  }

  /** The places of the stored variants. */
  ghost function Slots(m: map<string, seq<Candidate>>): set<(string, int)> {
    set key, i | key in m && 0 <= i < |m[key]| :: (key, i)
  }

  ghost predicate CountsStored(k: Collected) {
    k.tokenPathCount == Min(|Slots(k.tokenPaths)|, U64_MAX)
  }

  /** What the budget is compared with. */
  function Count(s: Setup, k: Collected): nat {
    if s.tuning.dedupTokenPaths then k.tokenPathCount else |k.candidates|
  }

  /** The budget is used up, and something has been kept. */
  predicate UsedUp(s: Setup, k: Collected) {
    Max(SelectionBudget(s.tuning), 1) <= Count(s, k)
  }

  /** The key of some allowed sound route. */
  ghost predicate AllowedKey(s: Setup, changed: seq<EdgeRef>, key: string) {
    exists r :: SoundRoute(s, changed, r) && s.allowed(r.anchor, r.refs) && RouteKey(s, r.refs) == key
  }

  ghost function AllowedKeys(s: Setup, changed: seq<EdgeRef>, seen: set<string>): set<string> {
    set key | key in seen && AllowedKey(s, changed, key)
  }

  /** There are allowed sound routes with at least `n` different keys. */
  ghost predicate ManyAllowed(s: Setup, changed: seq<EdgeRef>, n: nat) {
    exists keys: set<string> :: |keys| >= n && forall key :: key in keys ==> AllowedKey(s, changed, key)
  }

  lemma AllowedKeysPlus(s: Setup, changed: seq<EdgeRef>, seen: set<string>, key: string)
    ensures AllowedKeys(s, changed, seen + {key}) ==
            AllowedKeys(s, changed, seen) + (if AllowedKey(s, changed, key) then {key} else {})
    ensures key !in seen ==> key !in AllowedKeys(s, changed, seen)
  {
    hide AllowedKey;
  }

  lemma RouteIsAllowed(s: Setup, changed: seq<EdgeRef>, r: Route, c: Candidate)
    requires SoundRoute(s, changed, r) && Describes(s, r, c) && s.allowed(r.anchor, r.refs)
    ensures AllowedKey(s, changed, c.cycleKey)
  {
    hide SoundRoute, RouteKey, RouteScore, RouteHops;
  }

  lemma OneMore<T>(a: set<T>, x: T)
    requires x !in a
    ensures |a + {x}| == |a| + 1
  {}

  lemma AllowedKeysGrow(s: Setup, changed: seq<EdgeRef>, seen: set<string>, r: Route, c: Candidate)
    requires SoundRoute(s, changed, r) && Describes(s, r, c) && c.cycleKey !in seen
    ensures |AllowedKeys(s, changed, seen + {c.cycleKey})| >=
            |AllowedKeys(s, changed, seen)| + (if s.allowed(r.anchor, r.refs) then 1 else 0)
  {
    hide SoundRoute, Describes, AllowedKey, AllowedKeys;
    AllowedKeysPlus(s, changed, seen, c.cycleKey);
    if s.allowed(r.anchor, r.refs) {
      RouteIsAllowed(s, changed, r, c);
    }
    OneMore(AllowedKeys(s, changed, seen), c.cycleKey);
  }

  lemma SlotIn(m: map<string, seq<Candidate>>, key: string, i: int)
    ensures (key, i) in Slots(m) <==> key in m && 0 <= i < |m[key]|
  {}

  lemma StoreVariant(m: map<string, seq<Candidate>>, key: string, variants: seq<Candidate>)
    requires |variants| == |Entry(m, key)| || |variants| == |Entry(m, key)| + 1
    ensures |Slots(m[key := variants])| == |Slots(m)| + (|variants| - |Entry(m, key)|)
  {
    hide Slots;
    var after := m[key := variants];
    var added: set<(string, int)> := if |variants| == |Entry(m, key)| then {} else {(key, |variants| - 1)};
    forall slot: (string, int) ensures slot in Slots(after) <==> slot in Slots(m) || slot in added {
      SlotIn(m, slot.0, slot.1);
      SlotIn(after, slot.0, slot.1);
    }
    SlotIn(m, key, |variants| - 1);
    assert Slots(after) == Slots(m) + added;
  }

  lemma StoredCounts(m: map<string, seq<Candidate>>, key: string)
    requires Entry(m, key) != []
    ensures |Slots(m)| > 0
  {
    assert (key, 0) in Slots(m);
  }

  lemma WithVariantLength(variants: seq<Candidate>, c: Candidate, limit: nat)
    ensures |WithVariant(variants, c, limit)| == Min(|variants| + 1, limit)
  {
    hide Ranked;
  }

  /** Nothing seen or kept is forgotten. */
  ghost predicate Grows(s: Setup, k: Collected, k': Collected) {
    && k.seen <= k'.seen
    && (forall key, c :: HeldUnder(s, k.tokenPaths, key, c) ==> HeldUnder(s, k'.tokenPaths, key, c))
    && (forall c :: c in k.candidates ==> c in k'.candidates)
  }

  lemma SettledStays(s: Setup, changed: seq<EdgeRef>, k: Collected, k': Collected, key: string)
    requires Settled(s, changed, k, key) && Grows(s, k, k')
    ensures Settled(s, changed, k', key)
  {
    hide SoundRoute, Describes;
    var r, c :|
      && SoundRoute(s, changed, r) && Describes(s, r, c) && c.cycleKey == key
      && (s.allowed(r.anchor, r.refs) ==> Kept(s, k, c));
    assert s.allowed(r.anchor, r.refs) ==> Kept(s, k', c);
  }

  /** Remembering a key and, unless the route is not allowed, keeping its candidate. */
  lemma CollectedStep(s: Setup, changed: seq<EdgeRef>, k: Collected, k': Collected, r: Route, c: Candidate)
    requires CollectedSound(s, changed, k) && SoundRoute(s, changed, r) && Describes(s, r, c)
    requires Grows(s, k, k') && k'.seen == k.seen + {c.cycleKey} && c.cycleKey !in k.seen
    requires s.allowed(r.anchor, r.refs) ==> Kept(s, k', c)
    requires CountsStored(k') && Count(s, k') <= Count(s, k) + (if s.allowed(r.anchor, r.refs) then 1 else 0)
    requires forall x :: x in k'.candidates ==> x in k.candidates || SoundCandidate(s, changed, x)
    requires forall key :: key in k'.tokenPaths ==> SoundVariants(s, changed, key, k'.tokenPaths[key])
    ensures CollectedSound(s, changed, k')
  {
    hide SoundRoute, Describes, SoundCandidate, SoundVariants, Grows, Kept, Settled, AllowedKeys, CountsStored, Count;
    AllowedKeysGrow(s, changed, k.seen, r, c);
    forall key | key in k'.seen ensures Settled(s, changed, k', key) {
      if key in k.seen {
        SettledStays(s, changed, k, k', key);
      } else {
        SettledNow(s, changed, k', r, c);
      }
    }
  }

  lemma SettledNow(s: Setup, changed: seq<EdgeRef>, k: Collected, r: Route, c: Candidate)
    requires SoundRoute(s, changed, r) && Describes(s, r, c)
    requires s.allowed(r.anchor, r.refs) ==> Kept(s, k, c)
    ensures Settled(s, changed, k, c.cycleKey)
  {
    hide SoundRoute, Describes, Kept;
  }

  lemma OneMoreVariant(variants: seq<Candidate>, c: Candidate, limit: nat)
    ensures SortedBy(WithVariant(variants, c, limit), Ranked())
    ensures forall x :: x in WithVariant(variants, c, limit) ==> x in variants || x == c
  {
    RankedIsTotal();
    hide Ranked;
    SortSorts(variants + [c], Ranked());
    SortMembers(variants + [c], Ranked());
    TakeBest(Sort(variants + [c], Ranked()), limit, Ranked(), c);
  }

  /** Putting one more allowed candidate among the variants of its token path. */
  lemma VariantsStaySound(s: Setup, changed: seq<EdgeRef>, m: map<string, seq<Candidate>>, c: Candidate)
    requires forall key :: key in m ==> SoundVariants(s, changed, key, m[key])
    requires SoundCandidate(s, changed, c)
    ensures var key := TokenPathKey(c, s.show);
      SoundVariants(s, changed, key, WithVariant(Entry(m, key), c, Max(s.tuning.poolVariants, 1)))
  {
    hide Ranked, SoundCandidate, TokenPathKey, WithVariant;
    var variants, limit := Entry(m, TokenPathKey(c, s.show)), Max(s.tuning.poolVariants, 1);
    OneMoreVariant(variants, c, limit);
    WithVariantLength(variants, c, limit);
  }

  /** An entry with one more candidate holds or beats it and all that the entry held or beat before. */
  lemma VariantIsHeld(entry: seq<Candidate>, c: Candidate, limit: nat, x: Candidate)
    requires SortedBy(entry, Ranked()) && |entry| <= limit && limit > 0
    requires x == c || HeldOrBeaten(entry, limit, x)
    ensures HeldOrBeaten(WithVariant(entry, c, limit), limit, x)
  {
    RankedIsTotal();
    hide Ranked;
    var sorted := Sort(entry + [c], Ranked());
    SortSorts(entry + [c], Ranked());
    SortMembers(entry + [c], Ranked());
    TakeBest(sorted, limit, Ranked(), x);
    if x !in entry + [c] {
      var kept := WithVariant(entry, c, limit);
      forall q | q in kept ensures Ranked()(q, x) {
        var i :| 0 <= i < |kept| && kept[i] == q;
        AppendLowers(entry, [c], Ranked(), i);
        assert entry[i] in entry;
      }
    }
  }

  /** Storing it under its key forgets nothing. */
  lemma StoringKeeps(s: Setup, k: Collected, k': Collected, key: string, c: Candidate)
    requires SortedBy(Entry(k.tokenPaths, key), Ranked()) && |Entry(k.tokenPaths, key)| <= Max(s.tuning.poolVariants, 1)
    requires k'.tokenPaths == k.tokenPaths[key := WithVariant(Entry(k.tokenPaths, key), c, Max(s.tuning.poolVariants, 1))]
    ensures HeldUnder(s, k'.tokenPaths, key, c)
    ensures forall key', x :: HeldUnder(s, k.tokenPaths, key', x) ==> HeldUnder(s, k'.tokenPaths, key', x)
  {
    hide HeldOrBeaten, WithVariant, Ranked;
    VariantIsHeld(Entry(k.tokenPaths, key), c, Max(s.tuning.poolVariants, 1), c);
    forall key', x | HeldUnder(s, k.tokenPaths, key', x) ensures HeldUnder(s, k'.tokenPaths, key', x) {
      if key' == key {
        VariantIsHeld(Entry(k.tokenPaths, key), c, Max(s.tuning.poolVariants, 1), x);
      }
    }
  }

  /** The tail of the innermost loop: keep the candidate, and say whether the budget is used up. */
  method Collect(s: Setup, ghost changed: seq<EdgeRef>, k: Collected, c: Candidate) returns (k': Collected, full: bool)
    requires forall key :: key in k.tokenPaths ==> SoundVariants(s, changed, key, k.tokenPaths[key])
    requires SoundCandidate(s, changed, c) && CountsStored(k)
    ensures Grows(s, k, k') && k'.seen == k.seen && Kept(s, k', c)
    ensures CountsStored(k') && Count(s, k') <= Count(s, k) + 1
    ensures forall x :: x in k'.candidates ==> x in k.candidates || x == c
    ensures forall key :: key in k'.tokenPaths ==> SoundVariants(s, changed, key, k'.tokenPaths[key])
    ensures Count(s, k') > 0
    ensures full <==> SelectionBudget(s.tuning) <= Count(s, k')
  {
    hide SoundCandidate, TokenPathKey, WithVariant, Ranked, Slots, HeldUnder;
    if s.tuning.dedupTokenPaths {
      VariantsStaySound(s, changed, k.tokenPaths, c);
      ghost var variants := Entry(k.tokenPaths, TokenPathKey(c, s.show));
      WithVariantLength(variants, c, Max(s.tuning.poolVariants, 1));
      StoreVariant(k.tokenPaths, TokenPathKey(c, s.show), WithVariant(variants, c, Max(s.tuning.poolVariants, 1)));
      var tokenPaths, added := InsertTokenPathVariant(k.tokenPaths, TokenPathKey(c, s.show), c, s.tuning.poolVariants);
      StoredCounts(tokenPaths, TokenPathKey(c, s.show));
      k' := k.(tokenPaths := tokenPaths,
               tokenPathCount := if added then Min(k.tokenPathCount + 1, U64_MAX) else k.tokenPathCount);
      StoringKeeps(s, k, k', TokenPathKey(c, s.show), c);
      full := k'.tokenPathCount >= SelectionBudget(s.tuning);
    } else {
      k' := k.(candidates := k.candidates + [c]);
      full := |k'.candidates| >= SelectionBudget(s.tuning);
    }
  }

  /** `materialize_candidate` */
  method MaterializeCandidate(s: Setup, anchor: nat, key: string, score: int, refs: seq<EdgeRef>, changedRef: EdgeRef)
    returns (c: Option<Candidate>)
    requires ValidSetup(s) && anchor < |s.g.tokens|
    ensures c.Some? <==>
      && Resolves(s.g.ix.adjacency, changedRef) && s.allowed(anchor, refs)
      && (forall i :: 0 <= i < |refs| ==> Resolves(s.g.ix.adjacency, refs[i]))
      && exists i :: 0 <= i < |refs| && SamePair(s.g.ix.adjacency, refs[i], changedRef)
    ensures c.Some? ==> c.value == Candidate(s.g.tokens[anchor].address, score, s.routeCapacity(anchor, refs),
                                             s.routeQuality(anchor, refs), key, RouteHops(s.g, refs))
  {
    hide ValidSetup, RouteHops, HopOf, SamePair;
    var adjacency := s.g.ix.adjacency;
    var path: seq<Hop> := [];
    NoHops(s.g);
    var containsChangedPair := false;
    var changedEdge :- EdgeOf(adjacency, changedRef);
    for i := 0 to |refs|
      invariant path == RouteHops(s.g, refs[..i])
      invariant forall j :: 0 <= j < i ==> Resolves(adjacency, refs[j])
      invariant containsChangedPair <==> exists j :: 0 <= j < i && SamePair(adjacency, refs[j], changedRef)
    {
      var edge :- EdgeOf(adjacency, refs[i]);
      HopResolves(s, refs[i]);
      HopsPush(s.g, refs[..i], refs[i]);
      SamePairIs(adjacency, refs[i], changedRef);
      assert refs[..i + 1] == refs[..i] + [refs[i]];
      if edge.from == changedEdge.from && edge.to == changedEdge.to {
        containsChangedPair := true;
      }
      path := path + [Hop(s.g.tokens[edge.from].address, s.g.tokens[edge.to].address, edge.poolId)];
    }
    assert refs[..|refs|] == refs;
    if !containsChangedPair || !s.allowed(anchor, refs) {
      return None;
    }
    c := Some(Candidate(s.g.tokens[anchor].address, score, s.routeCapacity(anchor, refs), s.routeQuality(anchor, refs), key, path));
  }

  lemma NoHops(g: GraphSnapshot)
    ensures RouteHops(g, []) == []
  {}

  lemma SamePairIs(adjacency: seq<seq<Edge>>, ref: EdgeRef, other: EdgeRef)
    requires Resolves(adjacency, ref) && Resolves(adjacency, other)
    ensures SamePair(adjacency, ref, other) <==>
      && adjacency[ref.from][ref.idx].from == adjacency[other.from][other.idx].from
      && adjacency[ref.from][ref.idx].to == adjacency[other.from][other.idx].to
  {}

  predicate SamePair(adjacency: seq<seq<Edge>>, ref: EdgeRef, other: EdgeRef) {
    && Resolves(adjacency, ref) && Resolves(adjacency, other)
    && adjacency[ref.from][ref.idx].from == adjacency[other.from][other.idx].from
    && adjacency[ref.from][ref.idx].to == adjacency[other.from][other.idx].to
  }

  lemma PlacedWell(s: Setup)
    requires ValidSetup(s)
    ensures WellPlaced(s.g.ix.adjacency) && |s.g.ix.adjacency| == |s.g.tokens| && s.search.adjacency == s.g.ix.adjacency
  {}

  /** All edges of a sound route resolve, and the one at its place joins the changed pair. */
  lemma RouteEdges(s: Setup, changed: seq<EdgeRef>, r: Route, pair: ChangedPair)
    requires ValidSetup(s) && SoundRoute(s, changed, r)
    requires JoinsPair(s.g.ix.adjacency, pair.ref, r.tokens[r.at], r.tokens[r.at + 1])
    ensures forall i :: 0 <= i < |r.refs| ==> Resolves(s.g.ix.adjacency, r.refs[i])
    ensures SamePair(s.g.ix.adjacency, r.refs[r.at], pair.ref)
  {
    PlacedWell(s);
    hide ValidSetup, PairChanged, NoDup;
    forall i | 0 <= i < |r.refs| ensures Resolves(s.g.ix.adjacency, r.refs[i]) {
      assert IsHop(s.search, r.refs[i], r.tokens[i], r.tokens[i + 1]);
    }
    assert IsHop(s.search, r.refs[r.at], r.tokens[r.at], r.tokens[r.at + 1]);
  }

  /** One pass of the innermost loop. */
  method JoinOne(s: Setup, ghost changed: seq<EdgeRef>, anchor: nat, pair: ChangedPair, p: SearchPath, ref: EdgeRef,
                 q: SearchPath, k: Collected) returns (k': Collected, full: bool)
    requires ValidSetup(s) && anchor in s.g.anchors && CollectedSound(s, changed, k)
    requires Parts(s, anchor, pair.from, pair.to, p, ref, q)
    requires CheapestChange(s.g.ix.adjacency, changed, pair.from, pair.to, pair.ref)
    ensures CollectedSound(s, changed, k') && Grows(s, k, k')
    ensures Joinable(s, pair.to, p, ref, q) ==> RouteKey(s, Joined(p, ref, q)) in k'.seen
    ensures full ==> UsedUp(s, k')
  {
    hide ValidSetup, CollectedSound, Parts, ClosesSimply, SoundRoute, RouteKey, JoinedTokens, Cheaper, RouteScore, JoinsPair, HeldUnder,
         SoundCandidate, SoundVariants, Describes, Kept, CountsStored, Count, RouteHops;
    k', full := k, false;
    var totalHops := |p.refs| + 1 + |q.refs|;
    if totalHops > s.maxHops || totalHops < 2 {
      return;
    }
    var simple := FormsSimpleCycle(p, pair.to, q);
    if !simple {
      return;
    }
    PartResolves(s, anchor, pair, p, ref, q);
    var edge := EdgeOf(s.g.ix.adjacency, ref);
    if edge.None? {
      return;
    }
    var score := SatAddI64(SatAddI64(p.score, edge.value.rate.weight), q.score);
    if score >= s.cutoff {
      return;
    }
    var refs := Joined(p, ref, q);
    var key := RouteKey(s, refs);
    if key in k.seen {
      return;
    }
    ghost var r := JoinedRoute(anchor, p, ref, pair.to, q);
    ghost var described := KnownRoute(s, changed, anchor, pair, p, ref, q);
    hide Grows;
    KeepsVariants(s, changed, k);
    SeenOnly(s, k, key);
    k' := k.(seen := k.seen + {key});
    ghost var remembered := k';
    var candidate := MaterializeCandidate(s, anchor, key, score, refs, pair.ref);
    if candidate.Some? {
      DescribedIsSound(s, changed, r, described);
      k', full := Collect(s, changed, k', candidate.value);
      GrowsOn(s, k, remembered, k');
    }
    CollectedStep(s, changed, k, k', r, described);
  }

  lemma PartResolves(s: Setup, anchor: nat, pair: ChangedPair, p: SearchPath, ref: EdgeRef, q: SearchPath)
    requires ValidSetup(s) && Parts(s, anchor, pair.from, pair.to, p, ref, q)
    ensures EdgeOf(s.g.ix.adjacency, ref).Some? && EdgeOf(s.g.ix.adjacency, ref).value.rate.weight == Weight(s.search, ref)
  {
    PlacedWell(s);
    hide ValidSetup, SimplePath;
  }

  lemma SeenOnly(s: Setup, k: Collected, key: string)
    requires CountsStored(k)
    ensures var k' := k.(seen := k.seen + {key}); Grows(s, k, k') && CountsStored(k') && Count(s, k') == Count(s, k)
  {
    hide Slots;
  }

  lemma DescribedIsSound(s: Setup, changed: seq<EdgeRef>, r: Route, c: Candidate)
    requires SoundRoute(s, changed, r) && s.allowed(r.anchor, r.refs) && Describes(s, r, c)
    ensures SoundCandidate(s, changed, c)
  {
    hide SoundRoute, Describes;
  }

  lemma KeepsVariants(s: Setup, changed: seq<EdgeRef>, k: Collected)
    requires CollectedSound(s, changed, k)
    ensures CountsStored(k)
    ensures forall key :: key in k.tokenPaths ==> SoundVariants(s, changed, key, k.tokenPaths[key])
  {}

  /** What joins within the limits is a sound route; the candidate is its description. */
  lemma KnownRoute(s: Setup, changed: seq<EdgeRef>, anchor: nat, pair: ChangedPair, p: SearchPath, ref: EdgeRef, q: SearchPath)
    returns (c: Candidate)
    requires ValidSetup(s) && anchor in s.g.anchors
    requires Parts(s, anchor, pair.from, pair.to, p, ref, q) && Joinable(s, pair.to, p, ref, q)
    requires CheapestChange(s.g.ix.adjacency, changed, pair.from, pair.to, pair.ref)
    ensures var r := JoinedRoute(anchor, p, ref, pair.to, q);
      && SoundRoute(s, changed, r) && Describes(s, r, c) && anchor < |s.g.tokens|
      && c == Candidate(s.g.tokens[anchor].address, JoinScore(s, p, ref, q), s.routeCapacity(anchor, r.refs),
                        s.routeQuality(anchor, r.refs), RouteKey(s, r.refs), RouteHops(s.g, r.refs))
      && Resolves(s.g.ix.adjacency, pair.ref)
      && (forall i :: 0 <= i < |r.refs| ==> Resolves(s.g.ix.adjacency, r.refs[i]))
      && r.at < |r.refs| && SamePair(s.g.ix.adjacency, r.refs[r.at], pair.ref)
  {
    hide ValidSetup, Parts, Joinable, Cheaper, RouteKey, RouteHops, RouteScore, JoinedTokens, SamePair;
    var r := JoinedRoute(anchor, p, ref, pair.to, q);
    assert PairChanged(s.g.ix.adjacency, changed, pair.from, pair.to);
    JoinIsSound(s, changed, anchor, pair.from, pair.to, p, ref, q);
    PairOfJoin(s, anchor, pair.from, pair.to, p, ref, q);
    RouteAnchor(s, changed, r);
    RouteEdges(s, changed, r, pair);
    c := CandidateOf(s, r);
  }

  lemma PairOfJoin(s: Setup, anchor: nat, from: nat, to: nat, p: SearchPath, ref: EdgeRef, q: SearchPath)
    requires Parts(s, anchor, from, to, p, ref, q)
    ensures var tokens := JoinedTokens(p, to, q);
      |tokens| > |p.refs| + 1 && tokens[|p.refs|] == from && tokens[|p.refs| + 1] == to
  {
    hide IsHop, NoDup, TotalWeight, Narrowest;
    assert JoinedTokens(p, to, q) == p.tokens + q.tokens;
  }

  // ----- the nested loops

  ghost predicate PathsBetween(search: Search, start: nat, target: nat, paths: seq<SearchPath>) {
    forall p :: p in paths ==> SimplePath(search, start, p) && Node(p) == target
  }

  ghost predicate EdgesBetween(search: Search, from: nat, to: nat, refs: seq<EdgeRef>) {
    forall ref :: ref in refs ==> IsHop(search, ref, from, to)
  }

  ghost predicate Seen(s: Setup, to: nat, p: SearchPath, ref: EdgeRef, q: SearchPath, seen: set<string>) {
    Joinable(s, to, p, ref, q) ==> RouteKey(s, Joined(p, ref, q)) in seen
  }

  ghost predicate SuffixesSeen(s: Setup, to: nat, p: SearchPath, ref: EdgeRef, suffixes: seq<SearchPath>, seen: set<string>) {
    forall q :: q in suffixes ==> Seen(s, to, p, ref, q, seen)
  }

  ghost predicate SidesSeen(s: Setup, to: nat, prefixes: seq<SearchPath>, ref: EdgeRef, suffixes: seq<SearchPath>, seen: set<string>) {
    forall p :: p in prefixes ==> SuffixesSeen(s, to, p, ref, suffixes, seen)
  }

  lemma SeenStays(s: Setup, to: nat, prefixes: seq<SearchPath>, ref: EdgeRef, suffixes: seq<SearchPath>,
                  seen: set<string>, seen': set<string>)
    requires seen <= seen'
    ensures SidesSeen(s, to, prefixes, ref, suffixes, seen) ==> SidesSeen(s, to, prefixes, ref, suffixes, seen')
    ensures forall p :: SuffixesSeen(s, to, p, ref, suffixes, seen) ==> SuffixesSeen(s, to, p, ref, suffixes, seen')
  {
    hide Joinable, RouteKey, Joined;
  }

  lemma GrowsOn(s: Setup, a: Collected, b: Collected, c: Collected)
    requires Grows(s, a, b) && Grows(s, b, c)
    ensures Grows(s, a, c)
  {}

  method JoinSuffixes(s: Setup, ghost changed: seq<EdgeRef>, anchor: nat, pair: ChangedPair, p: SearchPath, ref: EdgeRef,
                      suffixes: seq<SearchPath>, k: Collected) returns (k': Collected, full: bool)
    requires ValidSetup(s) && anchor in s.g.anchors && CollectedSound(s, changed, k)
    requires SimplePath(s.search, anchor, p) && Node(p) == pair.from && IsHop(s.search, ref, pair.from, pair.to)
    requires PathsBetween(s.search, pair.to, anchor, suffixes)
    requires CheapestChange(s.g.ix.adjacency, changed, pair.from, pair.to, pair.ref)
    ensures CollectedSound(s, changed, k') && Grows(s, k, k')
    ensures !full ==> SuffixesSeen(s, pair.to, p, ref, suffixes, k'.seen)
    ensures full ==> UsedUp(s, k')
  {
    hide ValidSetup, CollectedSound, Joinable, RouteKey, Joined, CheapestChange, SimplePath, IsHop, Node;
    k', full := k, false;
    for i := 0 to |suffixes|
      invariant CollectedSound(s, changed, k') && Grows(s, k, k')
      invariant forall j :: 0 <= j < i ==> Seen(s, pair.to, p, ref, suffixes[j], k'.seen)
    {
      assert suffixes[i] in suffixes;
      assert Parts(s, anchor, pair.from, pair.to, p, ref, suffixes[i]);
      k', full := JoinOne(s, changed, anchor, pair, p, ref, suffixes[i], k');
      if full {
        return;
      }
    }
  }

  /** The loops over changed edges, prefixes and suffixes. */
  method JoinPaths(s: Setup, ghost changed: seq<EdgeRef>, anchor: nat, pair: ChangedPair, edges: seq<EdgeRef>,
                   prefixes: seq<SearchPath>, suffixes: seq<SearchPath>, k: Collected)
    returns (k': Collected, full: bool)
    requires ValidSetup(s) && anchor in s.g.anchors && CollectedSound(s, changed, k)
    requires PathsBetween(s.search, anchor, pair.from, prefixes)
    requires EdgesBetween(s.search, pair.from, pair.to, edges)
    requires PathsBetween(s.search, pair.to, anchor, suffixes)
    requires CheapestChange(s.g.ix.adjacency, changed, pair.from, pair.to, pair.ref)
    ensures CollectedSound(s, changed, k') && Grows(s, k, k')
    ensures !full ==> forall ref :: ref in edges ==> SidesSeen(s, pair.to, prefixes, ref, suffixes, k'.seen)
    ensures full ==> UsedUp(s, k')
  {
    hide ValidSetup, CollectedSound, CheapestChange, SimplePath, IsHop, Node, SuffixesSeen, Seen;
    k', full := k, false;
    for i := 0 to |edges|
      invariant CollectedSound(s, changed, k') && Grows(s, k, k')
      invariant forall j :: 0 <= j < i ==> SidesSeen(s, pair.to, prefixes, edges[j], suffixes, k'.seen)
    {
      assert edges[i] in edges;
      ghost var before := k';
      for j := 0 to |prefixes|
        invariant CollectedSound(s, changed, k') && Grows(s, k, k') && Grows(s, before, k')
        invariant forall l :: 0 <= l < j ==> SuffixesSeen(s, pair.to, prefixes[l], edges[i], suffixes, k'.seen)
      {
        assert prefixes[j] in prefixes;
        ghost var last := k';
        k', full := JoinSuffixes(s, changed, anchor, pair, prefixes[j], edges[i], suffixes, k');
        GrowsOn(s, k, last, k');
        GrowsOn(s, before, last, k');
        if full {
          return;
        }
        SeenStays(s, pair.to, prefixes, edges[i], suffixes, last.seen, k'.seen);
      }
      forall e | 0 <= e < i ensures SidesSeen(s, pair.to, prefixes, edges[e], suffixes, k'.seen) {
        SeenStays(s, pair.to, prefixes, edges[e], suffixes, before.seen, k'.seen);
      }
    }
  }

  predicate Takes(r: Route, anchor: nat, from: nat, to: nat) {
    Shaped(r) && r.anchor == anchor && r.tokens[r.at] == from && r.tokens[r.at + 1] == to
  }

  /** Every findable sound route of this pair and anchor has been looked at. */
  ghost predicate Covered(s: Setup, changed: seq<EdgeRef>, from: nat, to: nat, anchor: nat, seen: set<string>) {
    forall r :: SoundRoute(s, changed, r) && Findable(s, r) && Takes(r, anchor, from, to) ==> RouteKey(s, r.refs) in seen
  }

  ghost predicate PairCovered(s: Setup, changed: seq<EdgeRef>, pair: ChangedPair, seen: set<string>) {
    forall anchor :: anchor in s.g.anchors ==> Covered(s, changed, pair.from, pair.to, anchor, seen)
  }

  lemma CoveredStays(s: Setup, changed: seq<EdgeRef>, from: nat, to: nat, anchor: nat, seen: set<string>, seen': set<string>)
    requires Covered(s, changed, from, to, anchor, seen) && seen <= seen'
    ensures Covered(s, changed, from, to, anchor, seen')
  {
    hide SoundRoute, Findable, RouteKey;
  }

  lemma PairCoveredStays(s: Setup, changed: seq<EdgeRef>, pair: ChangedPair, seen: set<string>, seen': set<string>)
    requires PairCovered(s, changed, pair, seen) && seen <= seen'
    ensures PairCovered(s, changed, pair, seen')
  {
    hide Covered;
    forall anchor | anchor in s.g.anchors ensures Covered(s, changed, pair.from, pair.to, anchor, seen') {
      CoveredStays(s, changed, pair.from, pair.to, anchor, seen, seen');
    }
  }

  lemma SidesCover(s: Setup, changed: seq<EdgeRef>, from: nat, to: nat, anchor: nat, seen: set<string>)
    requires ValidSetup(s)
    requires var n := SatSub(s.maxHops, 1);
      forall ref :: ref in CandidatePairEdges(s, from, to) ==>
        SidesSeen(s, to, TopPaths(s.search, anchor, from, n), ref, TopPaths(s.search, to, anchor, n), seen)
    ensures Covered(s, changed, from, to, anchor, seen)
  {
    hide ValidSetup, SoundRoute, Findable, RouteKey, TopPaths, CandidatePairEdges, Joinable, Joined, JoinedTokens;
    forall r | SoundRoute(s, changed, r) && Findable(s, r) && Takes(r, anchor, from, to) ensures RouteKey(s, r.refs) in seen
    {
      PartsAreFound(s, changed, r);
      RouteFromParts(s, changed, r);
      var p, ref, q := Prefix(s.search, r), r.refs[r.at], Suffix(s.search, r);
      assert SuffixesSeen(s, to, p, ref, TopPaths(s.search, to, anchor, SatSub(s.maxHops, 1)), seen);
      assert Seen(s, to, p, ref, q, seen);
    }
  }

  /** Nothing to find on one side, no usable edge, or an anchor that cannot leave: nothing to cover. */
  lemma NothingToCover(s: Setup, changed: seq<EdgeRef>, from: nat, to: nat, anchor: nat, seen: set<string>)
    requires ValidSetup(s)
    requires var n := SatSub(s.maxHops, 1);
      || TopPaths(s.search, anchor, from, n) == [] || TopPaths(s.search, to, anchor, n) == []
      || CandidatePairEdges(s, from, to) == []
    ensures Covered(s, changed, from, to, anchor, seen)
  {
    SidesCover(s, changed, from, to, anchor, seen);
  }

  /** `anchor_can_participate` */
  predicate CanParticipate(g: GraphSnapshot, anchor: nat, from: nat, to: nat) {
    anchor == from || anchor == to || (anchor < |g.ix.adjacency| && g.ix.adjacency[anchor] != [])
  }

  lemma AnchorParticipates(s: Setup, changed: seq<EdgeRef>, r: Route, from: nat, to: nat)
    requires ValidSetup(s) && SoundRoute(s, changed, r)
    ensures CanParticipate(s.g, r.anchor, from, to)
  {
    PlacedWell(s);
    hide ValidSetup, NoDup, RouteScore, PairChanged;
    assert IsHop(s.search, r.refs[0], r.tokens[0], r.tokens[1]);
  }

  lemma ParticipantsOnly(s: Setup, changed: seq<EdgeRef>, from: nat, to: nat, anchor: nat, seen: set<string>)
    requires ValidSetup(s) && !CanParticipate(s.g, anchor, from, to)
    ensures Covered(s, changed, from, to, anchor, seen)
  {
    hide ValidSetup, SoundRoute, CanParticipate, Findable, RouteKey;
    forall r | SoundRoute(s, changed, r) ensures r.anchor != anchor {
      AnchorParticipates(s, changed, r, from, to);
    }
  }

  lemma FoundPaths(search: Search, start: nat, target: nat, maxHops: nat)
    requires ValidSearch(search)
    ensures PathsBetween(search, start, target, TopPaths(search, start, target, maxHops))
  {
    TopPathsSound(search, start, target, maxHops);
    hide TopPaths, SimplePath, ValidSearch;
  }

  lemma FoundEdges(s: Setup, from: nat, to: nat)
    requires ValidSetup(s)
    ensures EdgesBetween(s.search, from, to, CandidatePairEdges(s, from, to))
  {
    hide ValidSetup, CandidatePairEdges, UsablePairEdges, IsHop;
    forall ref | ref in CandidatePairEdges(s, from, to) ensures IsHop(s.search, ref, from, to) {
      PairEdgesAreHops(s, from, to, ref);
    }
  }

  lemma SearchIsValid(s: Setup)
    requires ValidSetup(s)
    ensures ValidSearch(s.search)
  {}

  /** One pass of the loop over the anchors. */
  method SearchAnchor(s: Setup, ghost changed: seq<EdgeRef>, anchor: nat, pair: ChangedPair, edges: seq<EdgeRef>,
                      caches: SearchCaches, k: Collected) returns (k': Collected, full: bool)
    requires ValidSetup(s) && caches.Valid(s.search) && anchor in s.g.anchors && CollectedSound(s, changed, k)
    requires edges == CandidatePairEdges(s, pair.from, pair.to)
    requires CheapestChange(s.g.ix.adjacency, changed, pair.from, pair.to, pair.ref)
    modifies caches
    ensures caches.Valid(s.search) && CollectedSound(s, changed, k') && Grows(s, k, k')
    ensures !full ==> Covered(s, changed, pair.from, pair.to, anchor, k'.seen)
    ensures full ==> UsedUp(s, k')
  {
    hide ValidSetup, CollectedSound, CheapestChange, Covered, SidesSeen, TopPaths, CandidatePairEdges, SearchCaches.Valid,
         PathsBetween, EdgesBetween;
    SearchIsValid(s);
    k', full := k, false;
    if !CanParticipate(s.g, anchor, pair.from, pair.to) {
      ParticipantsOnly(s, changed, pair.from, pair.to, anchor, k.seen);
      return;
    }
    var maxSideHops := SatSub(s.maxHops, 1);
    var prefixes := caches.FindTopPathsCached(s.search, anchor, pair.from, maxSideHops);
    if prefixes == [] {
      NothingToCover(s, changed, pair.from, pair.to, anchor, k.seen);
      return;
    }
    var suffixes := caches.FindTopPathsCached(s.search, pair.to, anchor, maxSideHops);
    if suffixes == [] {
      NothingToCover(s, changed, pair.from, pair.to, anchor, k.seen);
      return;
    }
    FoundPaths(s.search, anchor, pair.from, maxSideHops);
    FoundPaths(s.search, pair.to, anchor, maxSideHops);
    FoundEdges(s, pair.from, pair.to);
    k', full := JoinPaths(s, changed, anchor, pair, edges, prefixes, suffixes, k);
    if !full {
      SidesCover(s, changed, pair.from, pair.to, anchor, k'.seen);
    }
  }

  /** The reachability marks are exact for the endpoints of a pair. */
  ghost predicate MarksExact(g: GraphSnapshot, from: nat, to: nat, fromMark: bool, toMark: bool) {
    (fromMark <==> DistanceCache.FromSomeAnchor(g, from)) && (toMark <==> DistanceCache.ToSomeAnchor(g, to))
  }

  lemma SkippedIsCovered(s: Setup, changed: seq<EdgeRef>, pair: ChangedPair, fromMark: bool, toMark: bool, seen: set<string>)
    requires ValidSetup(s) && MarksExact(s.g, pair.from, pair.to, fromMark, toMark) && !(fromMark && toMark)
    ensures PairCovered(s, changed, pair, seen)
  {
    hide ValidSetup, IsCycle, Findable, RouteKey, DistanceCache.FromSomeAnchor, DistanceCache.ToSomeAnchor, PairChanged;
    forall r | SoundRoute(s, changed, r) && Shaped(r)
      ensures !(r.tokens[r.at] == pair.from && r.tokens[r.at + 1] == pair.to)
    {
      SkipDropsNoCycle(s, r);
    }
  }

  /** One pass of the loop over the changed pairs. */
  method SearchPair(s: Setup, ghost changed: seq<EdgeRef>, pair: ChangedPair, fromMark: bool, toMark: bool,
                    caches: SearchCaches, k: Collected) returns (k': Collected, full: bool)
    requires ValidSetup(s) && caches.Valid(s.search) && CollectedSound(s, changed, k)
    requires MarksExact(s.g, pair.from, pair.to, fromMark, toMark)
    requires CheapestChange(s.g.ix.adjacency, changed, pair.from, pair.to, pair.ref)
    modifies caches
    ensures caches.Valid(s.search) && CollectedSound(s, changed, k') && Grows(s, k, k')
    ensures !full ==> PairCovered(s, changed, pair, k'.seen)
    ensures full ==> UsedUp(s, k')
  {
    hide ValidSetup, CollectedSound, CheapestChange, Covered, MarksExact, SearchCaches.Valid, CandidatePairEdges;
    k', full := k, false;
    if !fromMark || !toMark {
      SkippedIsCovered(s, changed, pair, fromMark, toMark, k.seen);
      return;
    }
    var edges := CandidatePairEdges(s, pair.from, pair.to);
    if edges == [] {
      forall anchor | anchor in s.g.anchors ensures Covered(s, changed, pair.from, pair.to, anchor, k.seen) {
        NothingToCover(s, changed, pair.from, pair.to, anchor, k.seen);
      }
      return;
    }
    for i := 0 to |s.g.anchors|
      invariant caches.Valid(s.search) && CollectedSound(s, changed, k') && Grows(s, k, k')
      invariant forall j :: 0 <= j < i ==> Covered(s, changed, pair.from, pair.to, s.g.anchors[j], k'.seen)
    {
      ghost var last := k';
      k', full := SearchAnchor(s, changed, s.g.anchors[i], pair, edges, caches, k');
      GrowsOn(s, k, last, k');
      if full {
        return;
      }
      forall j | 0 <= j < i ensures Covered(s, changed, pair.from, pair.to, s.g.anchors[j], k'.seen) {
        CoveredStays(s, changed, pair.from, pair.to, s.g.anchors[j], last.seen, k'.seen);
      }
    }
  }

  // ----- the whole search

  /** `flatten_candidate_map`, in whatever order the map yields its entries. */
  method FlattenVariants(m: map<string, seq<Candidate>>) returns (cs: seq<Candidate>)
    ensures forall key, c :: key in m && c in m[key] ==> c in cs
    ensures forall c :: c in cs ==> exists key :: key in m && c in m[key]
  {
    cs := [];
    var rest := m.Keys;
    while rest != {}
      invariant rest <= m.Keys
      invariant forall key, c :: key in m.Keys - rest && c in m[key] ==> c in cs
      invariant forall c :: c in cs ==> exists key :: key in m && c in m[key]
      decreases rest
    {
      var key :| key in rest;
      rest := rest - {key};
      cs := cs + m[key];
    }
  }

  /** Some selected candidate has the anchor and pool cycle of `c`, or, when candidates are kept per
      token path, of one with the token path of `c` that ranks no lower. */
  ghost predicate KeptThrough(s: Setup, changed: seq<EdgeRef>, selected: seq<Candidate>, c: Candidate) {
    exists e ::
      && SoundCandidate(s, changed, e) && AnchorPoolKey(e, s.show) in Keys(selected, s.show)
      && (if s.tuning.dedupTokenPaths then TokenPathKey(e, s.show) == TokenPathKey(c, s.show) && Ranked()(e, c) else e == c)
  }

  lemma CountedIsListed(s: Setup, k: Collected, all: seq<Candidate>)
    requires CountsStored(k) && Count(s, k) > 0
    requires if s.tuning.dedupTokenPaths then forall key, c :: key in k.tokenPaths && c in k.tokenPaths[key] ==> c in all
             else all == k.candidates
    ensures all != []
  {
    if s.tuning.dedupTokenPaths {
      var slot :| slot in Slots(k.tokenPaths);
      var variants := k.tokenPaths[slot.0];
      assert variants[slot.1] in variants;
      assert variants[slot.1] in all;
    }
  }

  lemma KeptIsListed(s: Setup, changed: seq<EdgeRef>, k: Collected, all: seq<Candidate>, c: Candidate)
    requires CollectedSound(s, changed, k) && Kept(s, k, c)
    requires if s.tuning.dedupTokenPaths then forall key, x :: key in k.tokenPaths && x in k.tokenPaths[key] ==> x in all
             else all == k.candidates
    ensures exists x :: x in all && Ranked()(x, c)
  {
    RankedIsTotal();
    if s.tuning.dedupTokenPaths {
      var x := HeldThrough(s, changed, k, c);
      hide CollectedSound, SoundCandidate, TokenPathKey, Ranked;
      assert x in all;
    } else {
      hide CollectedSound, Ranked;
      assert c in all && Ranked()(c, c);
    }
  }

  /** The entry of a token path holds a candidate that ranks no lower than one that was kept under it. */
  lemma HeldThrough(s: Setup, changed: seq<EdgeRef>, k: Collected, c: Candidate) returns (x: Candidate)
    requires CollectedSound(s, changed, k) && Kept(s, k, c) && s.tuning.dedupTokenPaths
    ensures TokenPathKey(c, s.show) in k.tokenPaths && x in k.tokenPaths[TokenPathKey(c, s.show)] && Ranked()(x, c)
    ensures SoundCandidate(s, changed, x) && TokenPathKey(x, s.show) == TokenPathKey(c, s.show)
  {
    RankedIsTotal();
    hide SoundCandidate, TokenPathKey, Settled, AllowedKeys, Ranked, CountsStored;
    var key := TokenPathKey(c, s.show);
    var entry := Entry(k.tokenPaths, key);
    assert entry != [] && key in k.tokenPaths;
    assert SoundVariants(s, changed, key, entry);
    x := if c in entry then c else entry[0];
    assert x in entry && Ranked()(c, c);
  }

  lemma CountIsExact(s: Setup, changed: seq<EdgeRef>, k: Collected)
    requires CollectedSound(s, changed, k)
    ensures CountsStored(k)
  {}

  lemma KeptAnswers(s: Setup, changed: seq<EdgeRef>, k: Collected, all: seq<Candidate>, selected: seq<Candidate>, c: Candidate)
    requires CollectedSound(s, changed, k) && Kept(s, k, c) && Represented(selected, all, s.show)
    requires if s.tuning.dedupTokenPaths then forall key, x :: key in k.tokenPaths && x in k.tokenPaths[key] ==> x in all
             else all == k.candidates
    ensures KeptThrough(s, changed, selected, c)
  {
    hide SoundCandidate, AnchorPoolKey, TokenPathKey, Settled, AllowedKeys, Ranked, Keys;
    if s.tuning.dedupTokenPaths {
      var x := HeldThrough(s, changed, k, c);
      assert x in all;
    } else {
      assert c in all && SoundCandidate(s, changed, c);
    }
  }

  lemma ListedAreSound(s: Setup, changed: seq<EdgeRef>, k: Collected, all: seq<Candidate>)
    requires CollectedSound(s, changed, k)
    requires if s.tuning.dedupTokenPaths then forall c :: c in all ==> exists key :: key in k.tokenPaths && c in k.tokenPaths[key]
             else all == k.candidates
    ensures forall c :: c in all ==> SoundCandidate(s, changed, c)
  {
    hide SoundCandidate, TokenPathKey, Settled, AllowedKeys, Ranked;
  }

  /** The selection is the final selection from sound candidates, the best of them first. */
  ghost predicate SelectedFrom(s: Setup, changed: seq<EdgeRef>, selected: seq<Candidate>, offered: seq<Candidate>) {
    && (forall c :: c in offered ==> SoundCandidate(s, changed, c) && selected != [] && Ranked()(selected[0], c))
    && PicksFrom(selected, offered) && BestOfKey(selected, offered, s.show)
    && Selected(selected, Sort(offered, Ranked()), s.tuning, s.show)
  }

  /** The final step on both return paths. */
  method FinishSearch(s: Setup, ghost changed: seq<EdgeRef>, k: Collected)
    returns (selected: seq<Candidate>, ghost offered: seq<Candidate>)
    requires CollectedSound(s, changed, k)
    ensures forall c :: c in selected ==> SoundCandidate(s, changed, c)
    ensures SelectedFrom(s, changed, selected, offered)
    ensures forall c :: Kept(s, k, c) ==> selected != [] && Ranked()(selected[0], c)
    ensures NoDup(Keys(selected, s.show)) && |selected| <= Max(s.tuning.maxCandidates, 1)
    ensures selected == [] ==> Count(s, k) == 0 && forall c :: !Kept(s, k, c)
    ensures s.tuning.fillRotated && |selected| < s.tuning.maxCandidates ==>
      forall c :: Kept(s, k, c) ==> KeptThrough(s, changed, selected, c)
  {
    hide CollectedSound, CountsStored, Kept, KeptThrough, Count, Keys, Represented, Selected, BestOfKey, SoundCandidate, NoDup, Ranked;
    var all := k.candidates;
    if s.tuning.dedupTokenPaths {
      all := FlattenVariants(k.tokenPaths);
    }
    ListedAreSound(s, changed, k, all);
    CountIsExact(s, changed, k);
    selected := FinalizeCandidates(all, s.tuning, s.show);
    offered := all;
    forall c | Kept(s, k, c) ensures selected != [] && Ranked()(selected[0], c) {
      RankedIsTotal();
      KeptIsListed(s, changed, k, all, c);
    }
    if selected == [] && Count(s, k) > 0 {
      CountedIsListed(s, k, all);
    }
    if s.tuning.fillRotated && |selected| < s.tuning.maxCandidates {
      forall c | Kept(s, k, c) ensures KeptThrough(s, changed, selected, c) {
        KeptAnswers(s, changed, k, all, selected, c);
      }
    }
  }

  /** A sound route with the hops of `r` is not allowed. */
  ghost predicate Refused(s: Setup, changed: seq<EdgeRef>, r: Route) {
    exists r' :: SoundRoute(s, changed, r') && RouteKey(s, r'.refs) == RouteKey(s, r.refs) && !s.allowed(r'.anchor, r'.refs)
  }

  lemma SettledIsRefused(s: Setup, changed: seq<EdgeRef>, k: Collected, r: Route)
    requires Settled(s, changed, k, RouteKey(s, r.refs)) && forall c :: !Kept(s, k, c)
    ensures Refused(s, changed, r)
  {
    hide SoundRoute, Kept, RouteKey, RouteScore, RouteHops;
  }

  /** A route with the hops of `r` was looked at; if it is allowed, the first of the selection ranks no lower. */
  ghost predicate FirstAnswers(s: Setup, changed: seq<EdgeRef>, selected: seq<Candidate>, r: Route) {
    exists r', c ::
      && SoundRoute(s, changed, r') && Describes(s, r', c) && c.cycleKey == RouteKey(s, r.refs)
      && (s.allowed(r'.anchor, r'.refs) ==> selected != [] && Ranked()(selected[0], c))
  }

  lemma SettledIsBeaten(s: Setup, changed: seq<EdgeRef>, k: Collected, selected: seq<Candidate>, r: Route)
    requires Settled(s, changed, k, RouteKey(s, r.refs))
    requires forall c :: Kept(s, k, c) ==> selected != [] && Ranked()(selected[0], c)
    ensures FirstAnswers(s, changed, selected, r)
  {
    hide SoundRoute, Describes, Kept, Ranked, RouteKey;
    var r', c :|
      && SoundRoute(s, changed, r') && Describes(s, r', c) && c.cycleKey == RouteKey(s, r.refs)
      && (s.allowed(r'.anchor, r'.refs) ==> Kept(s, k, c));
    assert s.allowed(r'.anchor, r'.refs) ==> selected != [] && Ranked()(selected[0], c);
  }

  /** A route with the same hops was looked at; if it is allowed, the selection answers for it. */
  ghost predicate Answered(s: Setup, changed: seq<EdgeRef>, selected: seq<Candidate>, r: Route) {
    exists r', c ::
      && SoundRoute(s, changed, r') && Describes(s, r', c) && c.cycleKey == RouteKey(s, r.refs)
      && (s.allowed(r'.anchor, r'.refs) ==> KeptThrough(s, changed, selected, c))
  }

  lemma SettledIsAnswered(s: Setup, changed: seq<EdgeRef>, k: Collected, selected: seq<Candidate>, r: Route)
    requires Settled(s, changed, k, RouteKey(s, r.refs))
    requires forall c :: Kept(s, k, c) ==> KeptThrough(s, changed, selected, c)
    ensures Answered(s, changed, selected, r)
  {
    hide SoundRoute, Describes, Kept, KeptThrough, RouteKey;
    var r', c :|
      && SoundRoute(s, changed, r') && Describes(s, r', c) && c.cycleKey == RouteKey(s, r.refs)
      && (s.allowed(r'.anchor, r'.refs) ==> Kept(s, k, c));
    assert s.allowed(r'.anchor, r'.refs) ==> KeptThrough(s, changed, selected, c);
  }

  /** Too few hops allowed, or no changed edge that resolves: there is no sound route. */
  lemma NoRoutes(s: Setup, changed: seq<EdgeRef>, r: Route)
    requires s.maxHops < 2 || forall ref :: ref in changed ==> !Resolves(s.g.ix.adjacency, ref)
    ensures !SoundRoute(s, changed, r)
  {
    hide IsCycle, RouteScore;
  }

  lemma RouteShape(s: Setup, changed: seq<EdgeRef>, r: Route)
    requires SoundRoute(s, changed, r)
    ensures Shaped(r)
  {
    hide PairChanged, IsHop, NoDup;
  }

  lemma RouteHasPair(s: Setup, changed: seq<EdgeRef>, pairs: seq<ChangedPair>, r: Route, seen: set<string>)
    requires SoundRoute(s, changed, r) && Findable(s, r)
    requires PairsOf(s.g.ix.adjacency, changed, pairs)
    requires forall j :: 0 <= j < |pairs| ==> PairCovered(s, changed, pairs[j], seen)
    ensures RouteKey(s, r.refs) in seen
  {
    RouteShape(s, changed, r);
    hide IsCycle, RouteScore, RouteKey, Findable, Cheaper;
    var from, to := r.tokens[r.at], r.tokens[r.at + 1];
    var ref :| ref in changed && JoinsPair(s.g.ix.adjacency, ref, from, to);
    var pair :| pair in pairs && pair.from == from && pair.to == to;
    assert Covered(s, changed, pair.from, pair.to, r.anchor, seen);
  }

  /** The loop over the changed pairs, until the budget is used up. */
  method SearchPairs(s: Setup, ghost changed: seq<EdgeRef>, pairs: seq<ChangedPair>, fromAnchor: array<bool>, toAnchor: array<bool>)
    returns (k: Collected, full: bool)
    requires ValidSetup(s) && fromAnchor.Length == toAnchor.Length == |s.g.tokens|
    requires forall v :: 0 <= v < |s.g.tokens| ==> (fromAnchor[v] <==> DistanceCache.FromSomeAnchor(s.g, v))
    requires forall v :: 0 <= v < |s.g.tokens| ==> (toAnchor[v] <==> DistanceCache.ToSomeAnchor(s.g, v))
    requires PairsOf(s.g.ix.adjacency, changed, pairs)
    ensures CollectedSound(s, changed, k)
    ensures full ==> UsedUp(s, k)
    ensures !full ==> forall j :: 0 <= j < |pairs| ==> PairCovered(s, changed, pairs[j], k.seen)
  {
    hide ValidSetup, CollectedSound, SearchCaches.Valid, PairCovered, Grows, CheapestChange,
         DistanceCache.FromSomeAnchor, DistanceCache.ToSomeAnchor, UsedUp;
    var caches := new SearchCaches();
    FreshCaches(caches, s.search);
    k, full := Collected([], map[], 0, {}), false;
    NothingCollected(s, changed, k);
    for i := 0 to |pairs|
      invariant caches.Valid(s.search) && fresh(caches) && CollectedSound(s, changed, k) && !full
      invariant forall j :: 0 <= j < i ==> PairCovered(s, changed, pairs[j], k.seen)
    {
      var pair := pairs[i];
      assert pair in pairs;
      PairInGraph(s, changed, pair);
      ghost var last := k;
      k, full := SearchPair(s, changed, pair, fromAnchor[pair.from], toAnchor[pair.to], caches, k);
      if full {
        return;
      }
      SeenGrows(s, last, k);
      forall j | 0 <= j < i ensures PairCovered(s, changed, pairs[j], k.seen) {
        PairCoveredStays(s, changed, pairs[j], last.seen, k.seen);
      }
    }
  }

  /** When the search was not stopped, the first of the selection ranks no lower than the route, and with room
      left after filling the selection answers for the route; an empty selection means that it is refused. */
  ghost predicate AccountedFor(s: Setup, changed: seq<EdgeRef>, selected: seq<Candidate>, finished: bool, r: Route) {
    && (finished ==> FirstAnswers(s, changed, selected, r))
    && (finished && s.tuning.fillRotated && |selected| < s.tuning.maxCandidates ==> Answered(s, changed, selected, r))
    && (selected == [] ==> Refused(s, changed, r))
  }

  /** `find_candidates`. Under any limits every result is sound, no two share anchor and pool cycle,
      their number is bounded, and they are the final selection from the sound candidates that were
      offered. Unless the search was stopped by its budget, the first of them ranks no lower than any
      allowed route that the path limits do not hide. When filling is on and the selection stays below
      its limit, every sound route that the path limits do not hide has been looked at and, if allowed,
      is answered for, unless the search was stopped by its budget; and it is stopped only when there
      are at least as many different allowed sound routes as the budget. Whatever the limits, nothing
      is returned only when every sound route the path limits do not hide is refused. */
  method FindCandidates(s: Setup, changed: seq<EdgeRef>, fromAnchor: array<bool>, toAnchor: array<bool>)
    returns (selected: seq<Candidate>, ghost finished: bool, ghost offered: seq<Candidate>)
    requires ValidSetup(s) && fromAnchor.Length == toAnchor.Length == |s.g.tokens|
    requires forall v :: 0 <= v < |s.g.tokens| ==> (fromAnchor[v] <==> DistanceCache.FromSomeAnchor(s.g, v))
    requires forall v :: 0 <= v < |s.g.tokens| ==> (toAnchor[v] <==> DistanceCache.ToSomeAnchor(s.g, v))
    ensures forall c :: c in selected ==> SoundCandidate(s, changed, c)
    ensures NoDup(Keys(selected, s.show)) && |selected| <= Max(s.tuning.maxCandidates, 1)
    ensures SelectedFrom(s, changed, selected, offered)
    ensures !finished ==> ManyAllowed(s, changed, Max(SelectionBudget(s.tuning), 1))
    ensures forall r :: SoundRoute(s, changed, r) && Findable(s, r) ==> AccountedFor(s, changed, selected, finished, r)
  {
    assert NoDup(Keys([], s.show));
    hide SoundCandidate, SoundRoute, Findable, Answered, Refused, ValidSetup, CollectedSound, PairsOf, PairCovered, Kept, KeptThrough,
         Keys, NoDup, ManyAllowed, DistanceCache.FromSomeAnchor, DistanceCache.ToSomeAnchor, SelectedFrom, FirstAnswers, Ranked, AccountedFor, UsedUp,
         SelectionBudget, Count;
    selected, finished, offered := [], true, [];
    NothingSelected(s, changed);
    if s.maxHops < 2 || changed == [] {
      forall r ensures !SoundRoute(s, changed, r) {
        NoRoutes(s, changed, r);
      }
      return;
    }
    var pairs := ChangedPairs(s, changed);
    if pairs == [] {
      NoPairs(s, changed);
      return;
    }
    var k, full := SearchPairs(s, changed, pairs, fromAnchor, toAnchor);
    selected, offered := FinishSearch(s, changed, k);
    finished := !full;
    Concluded(s, changed, pairs, k, selected, finished);
  }

  lemma Concluded(s: Setup, changed: seq<EdgeRef>, pairs: seq<ChangedPair>, k: Collected, selected: seq<Candidate>, finished: bool)
    requires CollectedSound(s, changed, k) && PairsOf(s.g.ix.adjacency, changed, pairs)
    requires if finished then forall j :: 0 <= j < |pairs| ==> PairCovered(s, changed, pairs[j], k.seen) else UsedUp(s, k)
    requires forall c :: Kept(s, k, c) ==> selected != [] && Ranked()(selected[0], c)
    requires selected == [] ==> Count(s, k) == 0 && forall c :: !Kept(s, k, c)
    requires s.tuning.fillRotated && |selected| < s.tuning.maxCandidates ==>
      forall c :: Kept(s, k, c) ==> KeptThrough(s, changed, selected, c)
    ensures !finished ==> ManyAllowed(s, changed, Max(SelectionBudget(s.tuning), 1))
    ensures forall r :: SoundRoute(s, changed, r) && Findable(s, r) ==> AccountedFor(s, changed, selected, finished, r)
  {
    hide SoundRoute, Findable, Answered, Refused, CollectedSound, PairsOf, PairCovered, Kept, KeptThrough, ManyAllowed, FirstAnswers,
         Ranked, AccountedFor;
    if finished {
      AllLookedAt(s, changed, pairs, k, selected);
    } else {
      FullMeansMany(s, changed, k);
    }
    WhatItMeans(s, changed, selected, finished);
  }

  lemma WhatItMeans(s: Setup, changed: seq<EdgeRef>, selected: seq<Candidate>, finished: bool)
    requires finished ==> forall r :: SoundRoute(s, changed, r) && Findable(s, r) ==> FirstAnswers(s, changed, selected, r)
    requires finished && s.tuning.fillRotated && |selected| < s.tuning.maxCandidates ==>
      forall r :: SoundRoute(s, changed, r) && Findable(s, r) ==> Answered(s, changed, selected, r)
    requires selected == [] ==> forall r :: SoundRoute(s, changed, r) && Findable(s, r) ==> Refused(s, changed, r)
    ensures forall r :: SoundRoute(s, changed, r) && Findable(s, r) ==> AccountedFor(s, changed, selected, finished, r)
  {
    hide SoundRoute, Findable, FirstAnswers, Answered, Refused;
  }

  /** When all pairs are covered, every findable sound route is answered for. */
  lemma AllLookedAt(s: Setup, changed: seq<EdgeRef>, pairs: seq<ChangedPair>, k: Collected, selected: seq<Candidate>)
    requires CollectedSound(s, changed, k) && PairsOf(s.g.ix.adjacency, changed, pairs)
    requires forall j :: 0 <= j < |pairs| ==> PairCovered(s, changed, pairs[j], k.seen)
    ensures (forall c :: !Kept(s, k, c)) ==>
      forall r :: SoundRoute(s, changed, r) && Findable(s, r) ==> Refused(s, changed, r)
    ensures (forall c :: Kept(s, k, c) ==> KeptThrough(s, changed, selected, c)) ==>
      forall r :: SoundRoute(s, changed, r) && Findable(s, r) ==> Answered(s, changed, selected, r)
    ensures (forall c :: Kept(s, k, c) ==> selected != [] && Ranked()(selected[0], c)) ==>
      forall r :: SoundRoute(s, changed, r) && Findable(s, r) ==> FirstAnswers(s, changed, selected, r)
  {
    hide SoundRoute, Findable, Answered, FirstAnswers, Ranked, Refused, CollectedSound, PairsOf, PairCovered, Kept, KeptThrough, Settled, RouteKey;
    forall r | SoundRoute(s, changed, r) && Findable(s, r)
      ensures (forall c :: !Kept(s, k, c)) ==> Refused(s, changed, r)
      ensures (forall c :: Kept(s, k, c) ==> KeptThrough(s, changed, selected, c)) ==> Answered(s, changed, selected, r)
      ensures (forall c :: Kept(s, k, c) ==> selected != [] && Ranked()(selected[0], c)) ==> FirstAnswers(s, changed, selected, r)
    {
      RouteHasPair(s, changed, pairs, r, k.seen);
      SeenIsSettled(s, changed, k, RouteKey(s, r.refs));
      if forall c :: !Kept(s, k, c) {
        SettledIsRefused(s, changed, k, r);
      }
      if forall c :: Kept(s, k, c) ==> KeptThrough(s, changed, selected, c) {
        SettledIsAnswered(s, changed, k, selected, r);
      }
      if forall c :: Kept(s, k, c) ==> selected != [] && Ranked()(selected[0], c) {
        SettledIsBeaten(s, changed, k, selected, r);
      }
    }
  }

  lemma NothingSelected(s: Setup, changed: seq<EdgeRef>)
    ensures SelectedFrom(s, changed, [], [])
  {
    hide Ranked;
  }

  lemma NoPairs(s: Setup, changed: seq<EdgeRef>)
    requires PairsOf(s.g.ix.adjacency, changed, [])
    ensures forall r :: !SoundRoute(s, changed, r)
  {
    hide IsCycle, RouteScore, Cheaper;
  }

  lemma FreshCaches(caches: SearchCaches, search: Search)
    requires caches.topPaths == map[] && caches.outgoing == map[]
    ensures caches.Valid(search)
  {}

  lemma NothingCollected(s: Setup, changed: seq<EdgeRef>, k: Collected)
    requires k == Collected([], map[], 0, {})
    ensures CollectedSound(s, changed, k)
  {}

  lemma FullMeansMany(s: Setup, changed: seq<EdgeRef>, k: Collected)
    requires CollectedSound(s, changed, k) && UsedUp(s, k)
    ensures ManyAllowed(s, changed, Max(SelectionBudget(s.tuning), 1))
  {
    hide AllowedKey, SoundCandidate, SoundVariants, Settled;
    assert forall key :: key in AllowedKeys(s, changed, k.seen) ==> AllowedKey(s, changed, key);
  }

  lemma SeenGrows(s: Setup, k: Collected, k': Collected)
    requires Grows(s, k, k')
    ensures k.seen <= k'.seen
  {}

  lemma SeenIsSettled(s: Setup, changed: seq<EdgeRef>, k: Collected, key: string)
    requires CollectedSound(s, changed, k) && key in k.seen
    ensures Settled(s, changed, k, key)
  {
    hide Settled, SoundVariants, SoundCandidate;
  }

  lemma PairInGraph(s: Setup, changed: seq<EdgeRef>, pair: ChangedPair)
    requires ValidSetup(s) && CheapestChange(s.g.ix.adjacency, changed, pair.from, pair.to, pair.ref)
    ensures pair.from < |s.g.tokens| && pair.to < |s.g.tokens|
  {
    PlacedWell(s);
    hide ValidSetup, Cheaper;
  }

  // ----- what the answers mean

  lemma DescribedIsClosed(s: Setup, changed: seq<EdgeRef>, r: Route, c: Candidate)
    requires ValidSetup(s) && SoundRoute(s, changed, r) && Describes(s, r, c)
    ensures ClosedPath(c)
  {
    hide ValidSetup, SoundRoute, Describes;
    CycleEnds(s, changed, r, c);
    PathAt(s, changed, r, c, 0);
    PathAt(s, changed, r, c, |r.refs| - 1);
    forall i | 0 <= i < |c.path| - 1 ensures c.path[i].to == c.path[i + 1].from {
      PathAt(s, changed, r, c, i);
      PathAt(s, changed, r, c, i + 1);
    }
  }

  lemma CycleEnds(s: Setup, changed: seq<EdgeRef>, r: Route, c: Candidate)
    requires SoundRoute(s, changed, r) && Describes(s, r, c)
    ensures |r.tokens| == |r.refs| + 1 && r.refs != [] && r.anchor < |s.g.tokens|
    ensures r.tokens[0] == r.anchor == r.tokens[|r.refs|] && c.startToken == s.g.tokens[r.anchor].address
  {
    hide PairChanged, NoDup, IsHop, RouteKey, RouteScore, RouteHops;
  }

  /** The hop at `i` of the candidate goes between the addresses of the tokens at `i` and `i + 1`. */
  lemma PathAt(s: Setup, changed: seq<EdgeRef>, r: Route, c: Candidate, i: nat)
    requires ValidSetup(s) && SoundRoute(s, changed, r) && Describes(s, r, c) && i < |r.refs|
    ensures |c.path| == |r.refs| && |r.tokens| == |r.refs| + 1
    ensures r.tokens[i] < |s.g.tokens| && r.tokens[i + 1] < |s.g.tokens|
    ensures c.path[i].from == s.g.tokens[r.tokens[i]].address && c.path[i].to == s.g.tokens[r.tokens[i + 1]].address
  {
    assert IsCycle(s.search, r);
    hide ValidSetup, IsCycle, PairChanged, HopOf, RouteKey, RouteScore, RouteHops;
    CycleEnds(s, changed, r, c);
    forall j | 0 <= j < |r.refs| ensures Resolves(s.g.ix.adjacency, r.refs[j]) {
      HopAddresses(s, r, j);
    }
    HopsInOrder(s, r.refs);
    HopAddresses(s, r, i);
  }

  lemma HopAddresses(s: Setup, r: Route, i: nat)
    requires ValidSetup(s) && IsCycle(s.search, r) && i < |r.refs|
    ensures |r.tokens| == |r.refs| + 1
    ensures Resolves(s.g.ix.adjacency, r.refs[i]) && r.tokens[i] < |s.g.tokens| && r.tokens[i + 1] < |s.g.tokens|
    ensures var hop := HopOf(s.g, r.refs[i]);
      hop.Some? && hop.value.from == s.g.tokens[r.tokens[i]].address && hop.value.to == s.g.tokens[r.tokens[i + 1]].address
  {
    PlacedWell(s);
    hide ValidSetup, NoDup;
    assert IsHop(s.search, r.refs[i], r.tokens[i], r.tokens[i + 1]);
  }

  lemma {:induction false} SameKeySameHops(s: Setup, a: seq<EdgeRef>, b: seq<EdgeRef>)
    requires ValidSetup(s) && RouteHops(s.g, a) != [] && RouteHops(s.g, b) != []
    requires RouteKey(s, a) == RouteKey(s, b)
    ensures RouteHops(s.g, a) == RouteHops(s.g, b)
  {
    hide RouteHops, ValidSnapshot, ValidSearch;
    var p, q := RouteHops(s.g, a), RouteHops(s.g, b);
    EntriesInjective(p, q, s.show, ADDRESS_WIDTH);
    EntriesInjective(q, p, s.show, ADDRESS_WIDTH);
    JoinInjective(HopEntries(p, s.show), HopEntries(q, s.show), '|', 3 * ADDRESS_WIDTH + 2);
  }

  /** The selected candidate `c` goes the cycle of `d` from the same anchor; when candidates are kept
      per token path it may use other pools. */
  ghost predicate StandsFor(s: Setup, c: Candidate, d: Candidate) {
    && c.startToken == d.startToken
    && IsRotation(CycleTokens(c), CycleTokens(d))
    && (!s.tuning.dedupTokenPaths ==> IsRotation(c.path, d.path))
  }

  lemma SameKeysStandFor(s: Setup, x: Candidate, e: Candidate, c: Candidate)
    requires FixedWidth(s.show, ADDRESS_WIDTH) && ClosedPath(x) && ClosedPath(e)
    requires AnchorPoolKey(x, s.show) == AnchorPoolKey(e, s.show)
    requires if s.tuning.dedupTokenPaths then TokenPathKey(e, s.show) == TokenPathKey(c, s.show) else e == c
    ensures StandsFor(s, x, c)
  {
    hide FixedWidth, AnchorPoolKey, TokenPathKey, CycleTokens, IsRotation;
    AnchorKeyDecidesRotation(x, e, s.show, ADDRESS_WIDTH);
    HopCycleGivesTokenCycle(x, e);
    if s.tuning.dedupTokenPaths {
      TokenPathKeyInjective(e, c, s.show, ADDRESS_WIDTH);
      SamePathSameCycle(e, c);
    }
  }

  lemma SelectedFor(selected: seq<Candidate>, show: Show, key: string) returns (x: Candidate)
    requires key in Keys(selected, show)
    ensures x in selected && AnchorPoolKey(x, show) == key
  {
    hide AnchorPoolKey;
    var i :| 0 <= i < |selected| && Keys(selected, show)[i] == key;
    x := selected[i];
  }

  lemma KeptThroughMeans(s: Setup, changed: seq<EdgeRef>, selected: seq<Candidate>, c: Candidate)
    requires ValidSetup(s)
    requires forall x :: x in selected ==> SoundCandidate(s, changed, x)
    requires KeptThrough(s, changed, selected, c)
    ensures exists x :: x in selected && StandsFor(s, x, c)
  {
    assert FixedWidth(s.show, ADDRESS_WIDTH);
    hide ValidSetup, SoundCandidate, FixedWidth, AnchorPoolKey, TokenPathKey, ClosedPath, StandsFor, Keys;
    var e :|
      && SoundCandidate(s, changed, e) && AnchorPoolKey(e, s.show) in Keys(selected, s.show)
      && (if s.tuning.dedupTokenPaths then TokenPathKey(e, s.show) == TokenPathKey(c, s.show) else e == c);
    var x := SelectedFor(selected, s.show, AnchorPoolKey(e, s.show));
    SoundIsClosed(s, changed, e);
    SoundIsClosed(s, changed, x);
    SameKeysStandFor(s, x, e, c);
  }

  lemma HasHops(c: Candidate)
    requires ClosedPath(c)
    ensures c.path != []
  {}

  lemma SamePathSameCycle(c: Candidate, d: Candidate)
    requires PathTokens(c) == PathTokens(d)
    ensures c.startToken == d.startToken && CycleTokens(c) == CycleTokens(d)
  {
    assert c.startToken == PathTokens(c)[0] && d.startToken == PathTokens(d)[0];
    assert |c.path| == |PathTokens(c)| - 1 == |d.path|;
    forall i | 0 <= i < |c.path| ensures c.path[i].to == d.path[i].to {
      assert PathTokens(c)[i + 1] == c.path[i].to && PathTokens(d)[i + 1] == d.path[i].to;
    }
  }

  lemma SoundIsClosed(s: Setup, changed: seq<EdgeRef>, c: Candidate)
    requires ValidSetup(s) && SoundCandidate(s, changed, c)
    ensures ClosedPath(c)
  {
    hide ValidSetup, SoundRoute, Describes, ClosedPath;
    var r :| SoundRoute(s, changed, r) && s.allowed(r.anchor, r.refs) && Describes(s, r, c);
    DescribedIsClosed(s, changed, r, c);
  }

  /** What an answer means: a route with exactly the hops of `r` was looked at and, if that one is
      allowed, some selected candidate stands for `r`. */
  lemma AnswerMeans(s: Setup, changed: seq<EdgeRef>, selected: seq<Candidate>, r: Route, d: Candidate) returns (r': Route)
    requires ValidSetup(s) && SoundRoute(s, changed, r) && Describes(s, r, d)
    requires forall x :: x in selected ==> SoundCandidate(s, changed, x)
    requires Answered(s, changed, selected, r)
    ensures SoundRoute(s, changed, r') && RouteKey(s, r'.refs) == RouteKey(s, r.refs) && RouteHops(s.g, r'.refs) == d.path
    ensures s.allowed(r'.anchor, r'.refs) ==> exists x :: x in selected && StandsFor(s, x, d)
  {
    hide ValidSetup, SoundRoute, SoundCandidate, KeptThrough, StandsFor, ClosedPath, RouteKey, RouteHops, RouteScore;
    var c;
    r', c :|
      && SoundRoute(s, changed, r') && Describes(s, r', c) && c.cycleKey == RouteKey(s, r.refs)
      && (s.allowed(r'.anchor, r'.refs) ==> KeptThrough(s, changed, selected, c));
    DescribedIsClosed(s, changed, r', c);
    DescribedIsClosed(s, changed, r, d);
    HasHops(c);
    HasHops(d);
    SameKeySameHops(s, r'.refs, r.refs);
    if s.allowed(r'.anchor, r'.refs) {
      KeptThroughMeans(s, changed, selected, c);
      var x :| x in selected && StandsFor(s, x, c);
      StandsForSameHops(s, x, c, d);
    }
  }

  /** No two edges share source, target and pool. */
  ghost predicate NoTwins(g: GraphSnapshot) {
    forall a, b :: Resolves(g.ix.adjacency, a) && Resolves(g.ix.adjacency, b) && HopOf(g, a) == HopOf(g, b) ==> a == b
  }

  lemma SameHopsSameRefs(s: Setup, a: seq<EdgeRef>, b: seq<EdgeRef>)
    requires ValidSetup(s) && NoTwins(s.g) && RouteHops(s.g, a) == RouteHops(s.g, b)
    requires forall i :: 0 <= i < |a| ==> Resolves(s.g.ix.adjacency, a[i])
    requires forall i :: 0 <= i < |b| ==> Resolves(s.g.ix.adjacency, b[i])
    ensures a == b
  {
    hide ValidSetup, HopOf, RouteHops;
    HopsInOrder(s, a);
    HopsInOrder(s, b);
    forall i | 0 <= i < |a| ensures a[i] == b[i] {
      assert HopOf(s.g, a[i]) == HopOf(s.g, b[i]);
    }
  }

  /** Then the key of a sound route decides its edges and its anchor. */
  lemma NoTwinsSameRoute(s: Setup, changed: seq<EdgeRef>, a: Route, b: Route)
    requires ValidSetup(s) && NoTwins(s.g) && SoundRoute(s, changed, a) && SoundRoute(s, changed, b)
    requires RouteKey(s, a.refs) == RouteKey(s, b.refs)
    ensures a.refs == b.refs && a.anchor == b.anchor
  {
    hide ValidSetup, SoundRoute, RouteKey, NoTwins;
    RouteResolves(s, changed, a);
    RouteResolves(s, changed, b);
    RouteHasHops(s, a.refs);
    RouteHasHops(s, b.refs);
    hide RouteHops;
    SameKeySameHops(s, a.refs, b.refs);
    SameHopsSameRefs(s, a.refs, b.refs);
  }

  lemma RouteHasHops(s: Setup, refs: seq<EdgeRef>)
    requires ValidSetup(s) && refs != [] && forall i :: 0 <= i < |refs| ==> Resolves(s.g.ix.adjacency, refs[i])
    ensures RouteHops(s.g, refs) != []
  {
    hide ValidSetup, RouteHops;
    HopsInOrder(s, refs);
  }

  lemma RouteResolves(s: Setup, changed: seq<EdgeRef>, r: Route)
    requires ValidSetup(s) && SoundRoute(s, changed, r)
    ensures r.refs != [] && forall i :: 0 <= i < |r.refs| ==> Resolves(s.g.ix.adjacency, r.refs[i])
    ensures EdgeOf(s.g.ix.adjacency, r.refs[0]).Some? && r.anchor == EdgeOf(s.g.ix.adjacency, r.refs[0]).value.from
  {
    PlacedWell(s);
    hide ValidSetup, PairChanged, NoDup, RouteScore;
    forall i | 0 <= i < |r.refs| ensures Resolves(s.g.ix.adjacency, r.refs[i]) {
      assert IsHop(s.search, r.refs[i], r.tokens[i], r.tokens[i + 1]);
    }
    assert IsHop(s.search, r.refs[0], r.tokens[0], r.tokens[1]);
  }

  /** Without such edges an answered route that is allowed itself has a selected candidate standing for it,
      and a refused route is one that is not allowed itself. */
  lemma AnswerWithoutTwins(s: Setup, changed: seq<EdgeRef>, selected: seq<Candidate>, r: Route, d: Candidate)
    requires ValidSetup(s) && NoTwins(s.g) && SoundRoute(s, changed, r) && Describes(s, r, d)
    requires forall x :: x in selected ==> SoundCandidate(s, changed, x)
    ensures Answered(s, changed, selected, r) && s.allowed(r.anchor, r.refs) ==> exists x :: x in selected && StandsFor(s, x, d)
    ensures Refused(s, changed, r) ==> !s.allowed(r.anchor, r.refs)
  {
    hide ValidSetup, NoTwins, SoundRoute, SoundCandidate, StandsFor, RouteKey, RouteHops;
    if Answered(s, changed, selected, r) && s.allowed(r.anchor, r.refs) {
      var r' := AnswerMeans(s, changed, selected, r, d);
      NoTwinsSameRoute(s, changed, r', r);
    }
    if Refused(s, changed, r) {
      var r' :| SoundRoute(s, changed, r') && RouteKey(s, r'.refs) == RouteKey(s, r.refs) && !s.allowed(r'.anchor, r'.refs);
      NoTwinsSameRoute(s, changed, r', r);
    }
  }

  lemma StandsForSameHops(s: Setup, x: Candidate, c: Candidate, d: Candidate)
    requires StandsFor(s, x, c) && ClosedPath(c) && ClosedPath(d) && c.path == d.path
    ensures StandsFor(s, x, d)
  {
    hide IsRotation;
    ClosedTokens(c);
    ClosedTokens(d);
  }

  // ----- setups exist

  /** Hexadecimal texts, no filter, and hash maps that yield their targets in ascending order. */
  function PlainSetup(g: GraphSnapshot, minTrade: seq<Option<nat>>, limits: SearchLimits, maxHops: nat, cutoff: int,
                      tuning: Tuning): Setup
  {
    Setup(g, Search(g.ix.adjacency, minTrade, limits, _ => Indices(|g.tokens|)), HexShow(), maxHops, cutoff, tuning,
          (_, _) => true, (_, _) => 0, (_, _) => 0)
  }

  /** Every snapshot can be searched, with any limits. */
  lemma EverySnapshotHasASetup(g: GraphSnapshot, minTrade: seq<Option<nat>>, limits: SearchLimits, maxHops: nat,
                               cutoff: int, tuning: Tuning)
    requires ValidSnapshot(g)
    ensures ValidSetup(PlainSetup(g, minTrade, limits, maxHops, cutoff, tuning))
  {
    HexIsFixedWidth();
    PlacedTokens(g);
    hide IndexesAgree, FixedWidth, HexShow;
    var n := |g.tokens|;
    forall t: nat | t < n ensures t in Indices(n) {
      assert Indices(n)[t] == t;
    }
  }

  lemma PlacedTokens(g: GraphSnapshot)
    requires ValidSnapshot(g)
    ensures WellPlaced(g.ix.adjacency)
  {}

  const EXAMPLE_TUNING: Tuning := Tuning(8, 1, 1, 1, true, false, 1)

  /** An anchor and one other token, with a pool in each direction. */
  ghost function ExampleSnapshot(): GraphSnapshot {
    var tokens := [Token(1, true), Token(2, false)];
    GraphSnapshot(tokens, TokenIndex(tokens), [0],
                  AddEdge(AddEdge(Indexes(seq(2, _ => []), seq(2, _ => []), map[], map[]), EXAMPLE_OUT), EXAMPLE_BACK))
  }

  ghost function ExampleSetup(): Setup {
    PlainSetup(ExampleSnapshot(), [], SearchLimits(2, 1, 1, 1), 2, 0, EXAMPLE_TUNING)
  }

  const EXAMPLE_ROUTE: Route := Route(0, [EdgeRef(0, 0), EdgeRef(1, 0)], [0, 1, 0], 0)

  const EXAMPLE_OUT: Edge := Edge(0, 1, 7, Rate(1, -1, 1), true, 0)
  const EXAMPLE_BACK: Edge := Edge(1, 0, 8, Rate(1, -1, 1), true, 0)

  lemma ExampleAdjacency()
    ensures ExampleSnapshot().ix.adjacency == [[EXAMPLE_OUT], [EXAMPLE_BACK]]
  {
    var none: seq<Edge> := [];
    assert none + [EXAMPLE_OUT] == [EXAMPLE_OUT] && none + [EXAMPLE_BACK] == [EXAMPLE_BACK];
    assert seq(2, _ => none) == [none, none];
    assert PushEdge([none, none], EXAMPLE_OUT) == [[EXAMPLE_OUT], none];
    assert PushEdge([[EXAMPLE_OUT], none], EXAMPLE_BACK) == [[EXAMPLE_OUT], [EXAMPLE_BACK]];
  }

  lemma ExampleAgrees()
    ensures IndexesAgree(ExampleSnapshot().ix)
  {
    var empty := Indexes(seq(2, _ => []), seq(2, _ => []), map[], map[]);
    hide IndexesAgree;
    EmptyIndexes(2);
    AddEdgeKeepsAgreement(empty, EXAMPLE_OUT);
    AddEdgeKeepsAgreement(AddEdge(empty, EXAMPLE_OUT), EXAMPLE_BACK);
  }

  lemma ExampleIsValid()
    ensures ValidSetup(ExampleSetup())
    ensures ExampleSnapshot().anchors == [0] && |ExampleSnapshot().tokens| == 2
    ensures ExampleSnapshot().ix.adjacency == [[EXAMPLE_OUT], [EXAMPLE_BACK]]
  {
    var g := ExampleSnapshot();
    ExampleAgrees();
    ExampleAdjacency();
    assert g.tokens == [Token(1, true), Token(2, false)] && g.anchors == [0];
    hide IndexesAgree, ExampleSnapshot;
    assert forall i: nat :: i in g.anchors <==> i < |g.tokens| && g.tokens[i].isCycleAnchor;
    EverySnapshotHasASetup(g, [], SearchLimits(2, 1, 1, 1), 2, 0, EXAMPLE_TUNING);
  }

  lemma ExampleIsSound()
    ensures SoundRoute(ExampleSetup(), [EdgeRef(0, 0)], EXAMPLE_ROUTE)
  {
    ExampleIsValid();
    hide ValidSetup, ExampleSnapshot;
    var s, r := ExampleSetup(), EXAMPLE_ROUTE;
    assert IsHop(s.search, r.refs[0], 0, 1) && IsHop(s.search, r.refs[1], 1, 0);
    assert JoinsPair(s.g.ix.adjacency, EdgeRef(0, 0), 0, 1);
    assert NoDup(r.tokens[..2]);
    var back := [r.refs[1]];
    assert r.refs[..0] == [] && r.refs[1..] == back && back[..0] == [];
    assert TotalWeight(s.search, []) == 0 && TotalWeight(s.search, back) == -1;
    assert RouteScore(s.search, r) == -2;
    forall i | 0 <= i < |r.refs| ensures IsHop(s.search, r.refs[i], r.tokens[i], r.tokens[i + 1]) {
      assert i == 0 || i == 1;
    }
    assert IsCycle(s.search, r);
    assert PairChanged(s.g.ix.adjacency, [EdgeRef(0, 0)], r.tokens[r.at], r.tokens[r.at + 1]);
  }

  /** The preconditions of the search and its completeness are met together: a setup whose one cycle is
      sound, and limits of one that still find it. */
  lemma ExampleIsFindable()
    ensures ValidSetup(ExampleSetup())
    ensures SoundRoute(ExampleSetup(), [EdgeRef(0, 0)], EXAMPLE_ROUTE)
    ensures Findable(ExampleSetup(), EXAMPLE_ROUTE)
  {
    ExampleIsValid();
    ExampleIsSound();
    var s := ExampleSetup();
    assert s.search.limits == SearchLimits(2, 1, 1, 1) && s.maxHops == 2 && s.search.adjacency == [[EXAMPLE_OUT], [EXAMPLE_BACK]];
    hide *;
    SearchIsValid(s);
    OneHopIsFindable(s);
  }

  lemma OneHopIsFindable(s: Setup)
    requires ValidSetup(s) && ValidSearch(s.search) && s.search.limits == SearchLimits(2, 1, 1, 1) && s.maxHops == 2
    requires |s.search.adjacency| == 2 && forall v :: 0 <= v < 2 ==> |s.search.adjacency[v]| <= 1
    ensures Findable(s, EXAMPLE_ROUTE)
  {
    hide ValidSetup, ValidSearch, NothingCut, TopPaths, UsablePairEdges;
    OneHopFits(s.search);
    PairViewIsShort(s, 0, 1);
  }

  lemma OneHopFits(search: Search)
    requires ValidSearch(search) && search.limits == SearchLimits(2, 1, 1, 1)
    requires forall v :: 0 <= v < |search.adjacency| ==> |search.adjacency[v]| <= 1
    ensures SideFits(search, 1, 0, 1)
  {
    hide NothingCut, ValidSearch, Expand, Ending;
    var frontier := [StartPath(1)];
    assert Pow(1, 0) == 1 && Pow(1, 1) == 1;
    assert Roomy(search, 1, 1);
    RoomyLimitsNeverCut(search, 1, 1, 0, 1);
    ExpandShort(search, 1, 1, frontier);
    EndingShort(Expand(search, frontier), 0, true);
    var arrived := Ending(Expand(search, frontier), 0, true);
    assert [] + arrived == arrived;
    var next := NextFrontier(search, 0, frontier);
    assert TopPaths(search, 1, 0, 1) == Rounds(search, 0, next, NextOut(search, 0, frontier, []), 0);
  }

  lemma {:induction false} UsableOnlyShort(search: Search, refs: seq<EdgeRef>)
    ensures |UsableOnly(search, refs)| <= |refs|
  {
    if refs != [] {
      UsableOnlyShort(search, refs[..|refs| - 1]);
    }
  }

  /** A pair has no more usable edges than its source has edges. */
  lemma PairViewIsShort(s: Setup, from: nat, to: nat)
    requires ValidSetup(s) && from < |s.search.adjacency|
    ensures |UsablePairEdges(s, from, to)| <= |s.search.adjacency[from]|
  {
    var view := Entry(s.g.ix.pairToEdges, (from, to));
    assert ExactView(s.g.ix.adjacency, view, ByPair(from, to));
    assert WellPlaced(s.g.ix.adjacency);
    hide ValidSetup, Usable;
    UsableOnlyShort(s.search, view);
    var refs := RefsOf(s.search.adjacency, from);
    PlacedWell(s);
    forall ref | ref in view ensures ref in refs {
      RefsOfMembers(s.search.adjacency, from, ref);
    }
    NoDupFits(view, refs);
  }
}
