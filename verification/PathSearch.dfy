/** The layered beam search for the best paths between two tokens (`src/detector/path_finder.rs`).

    Weights, capacities and pool health are given by the edges. The order in which a hash map
    yields the targets of a vertex is an arbitrary enumeration, `order`. */
module PathSearch {
  import opened Common
  import opened Sorting
  import opened GraphModel

  /** `i64::saturating_add` */
  function SatAddI64(a: int, b: int): int {
    Max(I64_MIN, Min(I64_MAX, a + b))
  }

  datatype SearchPath = SearchPath(refs: seq<EdgeRef>, tokens: seq<nat>, score: int, capacityHint: nat)

  datatype SearchLimits = SearchLimits(topK: nat, branches: nat, beam: nat, pairEdges: nat)

  datatype Search = Search(adjacency: seq<seq<Edge>>, minTrade: seq<Option<nat>>, limits: SearchLimits,
                           order: nat -> seq<nat>)

  ghost predicate ValidSearch(g: Search) {
    && WellPlaced(g.adjacency)
    && (forall v :: NoDup(g.order(v)))
    && (forall v, t: nat :: t < |g.adjacency| ==> t in g.order(v))
  }

  // ----- which edges the search may use

  /** `edge_is_usable` */
  predicate Usable(g: Search, edge: Edge) {
    && edge.rate.spotRate != 0 && edge.rate.capacity != 0 && edge.healthy
    && (edge.from < |g.minTrade| && g.minTrade[edge.from].Some? ==> g.minTrade[edge.from].value <= edge.rate.capacity)
  }

  predicate UsableRef(g: Search, ref: EdgeRef) {
    Resolves(g.adjacency, ref) && Usable(g, g.adjacency[ref.from][ref.idx])
  }

  /** `compare_edge_refs`: cheaper first, then larger, more trusted, lower pool id. Only references
      that resolve are ever compared with one another. */
  function Cheaper(adjacency: seq<seq<Edge>>): (EdgeRef, EdgeRef) -> bool {
    (left: EdgeRef, right: EdgeRef) =>
      match (EdgeOf(adjacency, left), EdgeOf(adjacency, right))
      case (_, None) => true
      case (None, Some(_)) => false
      case (Some(a), Some(b)) =>
        if a.rate.weight != b.rate.weight then a.rate.weight < b.rate.weight
        else if a.rate.capacity != b.rate.capacity then a.rate.capacity > b.rate.capacity
        else if a.confidence != b.confidence then a.confidence > b.confidence
        else a.poolId <= b.poolId
  }

  /** The order of `ranked_outgoing` (`src/detector/pruning.rs`). */
  function Trusted(adjacency: seq<seq<Edge>>): (EdgeRef, EdgeRef) -> bool {
    (left: EdgeRef, right: EdgeRef) =>
      match (EdgeOf(adjacency, left), EdgeOf(adjacency, right))
      case (_, None) => true
      case (None, Some(_)) => false
      case (Some(a), Some(b)) =>
        if a.confidence != b.confidence then a.confidence > b.confidence
        else if a.rate.capacity != b.rate.capacity then a.rate.capacity > b.rate.capacity
        else a.rate.weight <= b.rate.weight
  }

  /** `sort_paths`: best score, then widest, then shortest. */
  function Better(): (SearchPath, SearchPath) -> bool {
    (a: SearchPath, b: SearchPath) =>
      if a.score != b.score then a.score < b.score
      else if a.capacityHint != b.capacityHint then a.capacityHint > b.capacityHint
      else |a.refs| <= |b.refs|
  }

  /** Among equals in one respect the next one decides: weight, capacity, confidence, pool id. */
  ghost predicate NoDearer(a: Edge, b: Edge) {
    && a.rate.weight <= b.rate.weight
    && (a.rate.weight == b.rate.weight ==>
          && a.rate.capacity >= b.rate.capacity
          && (a.rate.capacity == b.rate.capacity ==>
                && a.confidence >= b.confidence
                && (a.confidence == b.confidence ==> a.poolId <= b.poolId)))
  }

  lemma CheaperIsNoDearer(adjacency: seq<seq<Edge>>, a: EdgeRef, b: EdgeRef)
    requires Resolves(adjacency, a) && Resolves(adjacency, b)
    ensures Cheaper(adjacency)(a, b) <==> NoDearer(adjacency[a.from][a.idx], adjacency[b.from][b.idx])
  {}

  /** Among equals in one respect the next one decides: score, capacity, hops. */
  ghost predicate NoWorse(a: SearchPath, b: SearchPath) {
    && a.score <= b.score
    && (a.score == b.score ==> a.capacityHint >= b.capacityHint)
    && (a.score == b.score && a.capacityHint == b.capacityHint ==> |a.refs| <= |b.refs|)
  }

  lemma BetterIsNoWorse(a: SearchPath, b: SearchPath)
    ensures Better()(a, b) <==> NoWorse(a, b)
  {}

  lemma OrdersAreTotal(adjacency: seq<seq<Edge>>)
    ensures TotalPreorder(Cheaper(adjacency)) && TotalPreorder(Better())
  {}

  lemma TrustIsTotal(adjacency: seq<seq<Edge>>)
    ensures TotalPreorder(Trusted(adjacency))
  {}

  function RefsOf(adjacency: seq<seq<Edge>>, v: nat): seq<EdgeRef> {
    if v < |adjacency| then seq(|adjacency[v]|, i requires 0 <= i < |adjacency[v]| => EdgeRef(v, i)) else []
  }

  function RankedOutgoing(g: Search, v: nat): seq<EdgeRef> {
    Sort(RefsOf(g.adjacency, v), Trusted(g.adjacency))
  }

  /** The usable references to one target, in their order. */
  function UsableTo(g: Search, refs: seq<EdgeRef>, to: nat): seq<EdgeRef> {
    if refs == [] then []
    else
      var last := refs[|refs| - 1];
      UsableTo(g, refs[..|refs| - 1], to) + (if UsableRef(g, last) && g.adjacency[last.from][last.idx].to == to then [last] else [])
  }

  /** The group of one target, cut to the limit per pair. */
  function PairEdges(g: Search, v: nat, to: nat): seq<EdgeRef> {
    Take(Sort(UsableTo(g, RankedOutgoing(g, v), to), Cheaper(g.adjacency)), g.limits.pairEdges)
  }

  function Groups(g: Search, v: nat, targets: seq<nat>): seq<EdgeRef> {
    if targets == [] then []
    else Groups(g, v, targets[..|targets| - 1]) + PairEdges(g, v, targets[|targets| - 1])
  }

  function Outgoing(g: Search, v: nat): seq<EdgeRef> {
    Sort(Groups(g, v, g.order(v)), Cheaper(g.adjacency))
  }

  lemma NoneUsable(g: Search, to: nat)
    ensures UsableTo(g, [], to) == []
  {}

  lemma NoGroup(g: Search, v: nat, to: nat)
    requires UsableTo(g, RankedOutgoing(g, v), to) == []
    ensures PairEdges(g, v, to) == []
  {}

  lemma GroupStep(g: Search, refs: seq<EdgeRef>, i: nat, to: nat)
    requires i < |refs|
    ensures UsableTo(g, refs[..i + 1], to) ==
      if UsableRef(g, refs[i]) && g.adjacency[refs[i].from][refs[i].idx].to == to
      then UsableTo(g, refs[..i], to) + [refs[i]] else UsableTo(g, refs[..i], to)
  {
    hide Usable;
    assert refs[..i + 1][..i] == refs[..i];
  }

  /** `virtual_outgoing` */
  method VirtualOutgoing(g: Search, v: nat) returns (out: seq<EdgeRef>)
    requires ValidSearch(g)
    ensures out == Outgoing(g, v)
  {
    hide Cheaper, Trusted, Sort, Usable, UsableTo, ValidSearch, RankedOutgoing;
    var byTo: map<nat, seq<EdgeRef>> := map[];
    var ranked := RankedOutgoing(g, v);
    forall to: nat ensures UsableTo(g, ranked[..0], to) == [] {
      NoneUsable(g, to);
    }
    for i := 0 to |ranked|
      invariant forall to: nat :: Entry(byTo, to) == UsableTo(g, ranked[..i], to)
    {
      ghost var before := byTo;
      var edge := EdgeOf(g.adjacency, ranked[i]);
      if edge.Some? && Usable(g, edge.value) {
        byTo := byTo[edge.value.to := Entry(byTo, edge.value.to) + [ranked[i]]];
      }
      forall to: nat ensures Entry(byTo, to) == UsableTo(g, ranked[..i + 1], to) {
        GroupStep(g, ranked, i, to);
        assert Entry(before, to) == UsableTo(g, ranked[..i], to);
      }
    }
    assert ranked[..|ranked|] == ranked;
    out := [];
    var targets := g.order(v);
    for i := 0 to |targets|
      invariant out == Groups(g, v, targets[..i])
    {
      assert targets[..i + 1][..i] == targets[..i];
      if targets[i] in byTo {
        var group := Sort(byTo[targets[i]], Cheaper(g.adjacency));
        out := out + Take(group, g.limits.pairEdges);
      } else {
        NoGroup(g, v, targets[i]);
      }
    }
    assert targets[..|targets|] == targets;
    out := Sort(out, Cheaper(g.adjacency));
  }

  // ----- growing paths

  function StartPath(start: nat): SearchPath {
    SearchPath([], [start], 0, U128_MAX)
  }

  function Node(p: SearchPath): nat {
    if p.tokens == [] then 0 else p.tokens[|p.tokens| - 1]
  }

  /** One more hop, unless the edge is unusable or leads back to a token of the path. */
  function Extend(g: Search, p: SearchPath, ref: EdgeRef): Option<SearchPath> {
    var edge :- EdgeOf(g.adjacency, ref);
    if !Usable(g, edge) || edge.to in p.tokens then None
    else Some(SearchPath(p.refs + [ref], p.tokens + [edge.to], SatAddI64(p.score, edge.rate.weight),
                         if edge.rate.capacity > 0 then Min(p.capacityHint, edge.rate.capacity) else p.capacityHint))
  }

  function Extensions(g: Search, p: SearchPath, refs: seq<EdgeRef>): seq<SearchPath> {
    if refs == [] then []
    else
      var next := Extend(g, p, refs[|refs| - 1]);
      Extensions(g, p, refs[..|refs| - 1]) + (if next.Some? then [next.value] else [])
  }

  function Branches(g: Search, p: SearchPath): seq<EdgeRef> {
    Take(Outgoing(g, Node(p)), g.limits.branches)
  }

  function Expand(g: Search, frontier: seq<SearchPath>): seq<SearchPath> {
    if frontier == [] then []
    else
      var last := frontier[|frontier| - 1];
      Expand(g, frontier[..|frontier| - 1]) + Extensions(g, last, Branches(g, last))
  }

  /** The paths that end at the target, or those that do not. */
  function Ending(paths: seq<SearchPath>, target: nat, here: bool): seq<SearchPath> {
    if paths == [] then []
    else
      var last := paths[|paths| - 1];
      Ending(paths[..|paths| - 1], target, here) + (if (Node(last) == target) == here then [last] else [])
  }

  function NextFrontier(g: Search, target: nat, frontier: seq<SearchPath>): seq<SearchPath> {
    Take(Sort(Ending(Expand(g, frontier), target, false), Better()), g.limits.beam)
  }

  function NextOut(g: Search, target: nat, frontier: seq<SearchPath>, out: seq<SearchPath>): seq<SearchPath> {
    Take(Sort(out + Ending(Expand(g, frontier), target, true), Better()), g.limits.topK)
  }

  function Rounds(g: Search, target: nat, frontier: seq<SearchPath>, out: seq<SearchPath>, n: nat): seq<SearchPath>
    decreases n
  {
    if n == 0 || frontier == [] then Take(Sort(out, Better()), g.limits.topK)
    else Rounds(g, target, NextFrontier(g, target, frontier), NextOut(g, target, frontier, out), n - 1)
  }

  function TopPaths(g: Search, start: nat, target: nat, maxHops: nat): seq<SearchPath> {
    if start == target then [StartPath(start)] else Rounds(g, target, [StartPath(start)], [], maxHops)
  }

  // ----- the search with its caches

  lemma EndingPush(paths: seq<SearchPath>, last: SearchPath, target: nat, here: bool)
    ensures Ending(paths + [last], target, here) ==
            Ending(paths, target, here) + (if (Node(last) == target) == here then [last] else [])
  {
    assert (paths + [last])[..|paths|] == paths;
  }

  lemma {:induction false} EndingAppend(a: seq<SearchPath>, b: seq<SearchPath>, target: nat, here: bool)
    ensures Ending(a + b, target, here) == Ending(a, target, here) + Ending(b, target, here)
  {
    if b == [] {
      assert a + b == a;
    } else {
      var init, last := b[..|b| - 1], b[|b| - 1];
      var tail := if (Node(last) == target) == here then [last] else [];
      EndingAppend(a, init, target, here);
      hide Ending, Node;
      assert b == init + [last];
      AppendAssociates(a, init, [last]);
      EndingPush(a + init, last, target, here);
      EndingPush(init, last, target, here);
      AppendAssociates(Ending(a, target, here), Ending(init, target, here), tail);
    }
  }

  lemma AppendAssociates<T>(a: seq<T>, b: seq<T>, c: seq<T>)
    ensures (a + b) + c == a + (b + c)
  {}

  lemma EndingOfNone(target: nat)
    ensures Ending([], target, true) == [] && Ending([], target, false) == []
  {}

  lemma NoExtensions(g: Search, p: SearchPath, refs: seq<EdgeRef>)
    ensures Extensions(g, p, refs[..0]) == []
  {}

  /** One more branch: its path, if any, joins those that end at the target or those that do not. */
  lemma ExtensionStep(g: Search, done: seq<SearchPath>, p: SearchPath, refs: seq<EdgeRef>, j: nat, target: nat, here: bool)
    requires j < |refs|
    ensures var next := Extend(g, p, refs[j]);
      var before := Ending(done + Extensions(g, p, refs[..j]), target, here);
      Ending(done + Extensions(g, p, refs[..j + 1]), target, here) ==
        if next.Some? && (Node(next.value) == target) == here then before + [next.value] else before
  {
    hide Extend, Node;
    assert refs[..j + 1][..j] == refs[..j];
    var sofar, next := done + Extensions(g, p, refs[..j]), Extend(g, p, refs[j]);
    if next.None? {
      assert done + Extensions(g, p, refs[..j + 1]) == sofar;
    } else {
      assert done + Extensions(g, p, refs[..j + 1]) == sofar + [next.value];
      assert (sofar + [next.value])[..|sofar|] == sofar;
    }
  }

  class SearchCaches {
    var topPaths: map<(nat, nat, nat), seq<SearchPath>>
    var outgoing: map<nat, seq<EdgeRef>>

    constructor ()
      ensures topPaths == map[] && outgoing == map[]
    {
      topPaths := map[];
      outgoing := map[];
    }

    /** Whatever is remembered is what a fresh computation gives. */
    ghost predicate Valid(g: Search)
      reads this
    {
      && (forall v :: v in outgoing ==> outgoing[v] == Outgoing(g, v))
      && (forall s, t, n :: (s, t, n) in topPaths ==> topPaths[(s, t, n)] == TopPaths(g, s, t, n))
    }

    method VirtualOutgoingCached(g: Search, v: nat) returns (refs: seq<EdgeRef>)
      requires ValidSearch(g) && Valid(g)
      modifies this
      ensures Valid(g) && refs == Outgoing(g, v)
    {
      if v in outgoing {
        return outgoing[v];
      }
      refs := VirtualOutgoing(g, v);
      outgoing := outgoing[v := refs];
    }

    method FindTopPathsCached(g: Search, start: nat, target: nat, maxHops: nat) returns (paths: seq<SearchPath>)
      requires ValidSearch(g) && Valid(g)
      modifies this
      ensures Valid(g) && paths == TopPaths(g, start, target, maxHops)
    {
      var key := (start, target, maxHops);
      if key in topPaths {
        return topPaths[key];
      }
      paths := FindTopPaths(g, start, target, maxHops);
      topPaths := topPaths[key := paths];
    }

    /** `find_top_paths` */
    method FindTopPaths(g: Search, start: nat, target: nat, maxHops: nat) returns (paths: seq<SearchPath>)
      requires ValidSearch(g) && Valid(g)
      modifies this
      ensures Valid(g) && paths == TopPaths(g, start, target, maxHops)
    {
      hide Outgoing, Sort, Extend, ValidSearch;
      if start == target {
        return [StartPath(start)];
      }
      var frontier := [StartPath(start)];
      var out: seq<SearchPath> := [];
      var round := 0;
      while round < maxHops && frontier != []
        invariant round <= maxHops && Valid(g)
        invariant TopPaths(g, start, target, maxHops) == Rounds(g, target, frontier, out, maxHops - round)
        decreases maxHops - round
      {
        var arrived, travelling := ExpandRound(g, frontier, target);
        out := Take(Sort(out + arrived, Better()), g.limits.topK);
        frontier := Take(Sort(travelling, Better()), g.limits.beam);
        round := round + 1;
      }
      paths := Take(Sort(out, Better()), g.limits.topK);
    }

    /** The two inner loops: every frontier path along every branch. */
    method ExpandRound(g: Search, frontier: seq<SearchPath>, target: nat)
      returns (arrived: seq<SearchPath>, travelling: seq<SearchPath>)
      requires ValidSearch(g) && Valid(g)
      modifies this
      ensures Valid(g)
      ensures arrived == Ending(Expand(g, frontier), target, true)
      ensures travelling == Ending(Expand(g, frontier), target, false)
    {
      hide Outgoing, Sort, Extend, ValidSearch, Extensions, Ending, Valid, Node;
      EndingOfNone(target);
      arrived, travelling := [], [];
      for i := 0 to |frontier|
        invariant Valid(g)
        invariant arrived == Ending(Expand(g, frontier[..i]), target, true)
        invariant travelling == Ending(Expand(g, frontier[..i]), target, false)
      {
        var current := frontier[i];
        var refs := VirtualOutgoingCached(g, Node(current));
        refs := Take(refs, g.limits.branches);
        ghost var done := Expand(g, frontier[..i]);
        NoExtensions(g, current, refs);
        assert done + Extensions(g, current, refs[..0]) == done;
        for j := 0 to |refs|
          invariant Valid(g)
          invariant arrived == Ending(done + Extensions(g, current, refs[..j]), target, true)
          invariant travelling == Ending(done + Extensions(g, current, refs[..j]), target, false)
        {
          ExtensionStep(g, done, current, refs, j, target, true);
          ExtensionStep(g, done, current, refs, j, target, false);
          var next := Extend(g, current, refs[j]);
          if next.None? {
            continue;
          }
          if Node(next.value) == target {
            arrived := arrived + [next.value];
          } else {
            travelling := travelling + [next.value];
          }
        }
        assert refs[..|refs|] == refs == Branches(g, current);
        assert frontier[..i + 1][..i] == frontier[..i];
        assert Expand(g, frontier[..i + 1]) == done + Extensions(g, current, refs);
      }
      assert frontier[..|frontier|] == frontier;
    }
  }

  // ----- what a path is

  predicate IsHop(g: Search, ref: EdgeRef, from: nat, to: nat) {
    UsableRef(g, ref) && ref.from == from && g.adjacency[ref.from][ref.idx].to == to
  }

  function Weight(g: Search, ref: EdgeRef): int {
    if Resolves(g.adjacency, ref) then g.adjacency[ref.from][ref.idx].rate.weight else 0
  }

  function Capacity(g: Search, ref: EdgeRef): nat {
    if Resolves(g.adjacency, ref) then g.adjacency[ref.from][ref.idx].rate.capacity else 0
  }

  function TotalWeight(g: Search, refs: seq<EdgeRef>): int {
    if refs == [] then 0 else SatAddI64(TotalWeight(g, refs[..|refs| - 1]), Weight(g, refs[|refs| - 1]))
  }

  function Narrowest(g: Search, refs: seq<EdgeRef>): nat {
    if refs == [] then U128_MAX else Min(Narrowest(g, refs[..|refs| - 1]), Capacity(g, refs[|refs| - 1]))
  }

  /** Usable hops that join up from `start` and visit no token twice. */
  ghost predicate Connects(g: Search, start: nat, refs: seq<EdgeRef>, tokens: seq<nat>) {
    && |tokens| == |refs| + 1 && tokens[0] == start && NoDup(tokens)
    && (forall i :: 0 <= i < |refs| ==> IsHop(g, refs[i], tokens[i], tokens[i + 1]))
  }

  ghost predicate SimplePath(g: Search, start: nat, p: SearchPath) {
    && Connects(g, start, p.refs, p.tokens)
    && p.score == TotalWeight(g, p.refs)
    && p.capacityHint == Narrowest(g, p.refs)
  }

  ghost predicate PathTo(g: Search, start: nat, target: nat, maxHops: nat, p: SearchPath) {
    SimplePath(g, start, p) && Node(p) == target && |p.refs| <= maxHops
  }

  /** A simple path is determined by its start and its edges. */
  lemma {:induction false} SamePath(g: Search, start: nat, p: SearchPath, q: SearchPath)
    requires SimplePath(g, start, p) && SimplePath(g, start, q) && p.refs == q.refs
    ensures p == q
  {
    forall i | 0 <= i < |p.tokens| ensures p.tokens[i] == q.tokens[i] {
      if i > 0 {
        assert IsHop(g, p.refs[i - 1], p.tokens[i - 1], p.tokens[i]);
        assert IsHop(g, q.refs[i - 1], q.tokens[i - 1], q.tokens[i]);
      }
    }
  }

  lemma ExtendIsSimple(g: Search, start: nat, p: SearchPath, ref: EdgeRef)
    requires SimplePath(g, start, p) && Extend(g, p, ref).Some? && ref.from == Node(p)
    ensures SimplePath(g, start, Extend(g, p, ref).value)
  {
    var next := Extend(g, p, ref).value;
    assert next.refs[..|next.refs| - 1] == p.refs;
    NoDupPush(p.tokens, Node(next));
    forall i | 0 <= i < |next.refs| ensures IsHop(g, next.refs[i], next.tokens[i], next.tokens[i + 1]) {
      if i < |p.refs| {
        assert IsHop(g, p.refs[i], p.tokens[i], p.tokens[i + 1]);
      }
    }
  }

  function Shorter(p: SearchPath, g: Search): SearchPath
    requires p.refs != [] && p.tokens != []
  {
    var refs := p.refs[..|p.refs| - 1];
    SearchPath(refs, p.tokens[..|p.tokens| - 1], TotalWeight(g, refs), Narrowest(g, refs))
  }

  lemma ShorterExtends(g: Search, start: nat, p: SearchPath)
    requires SimplePath(g, start, p) && p.refs != []
    ensures SimplePath(g, start, Shorter(p, g))
    ensures var ref := p.refs[|p.refs| - 1];
      UsableRef(g, ref) && ref.from == Node(Shorter(p, g)) && Extend(g, Shorter(p, g), ref) == Some(p)
  {
    var q, last := Shorter(p, g), |p.refs| - 1;
    forall i | 0 <= i < |q.refs| ensures IsHop(g, q.refs[i], q.tokens[i], q.tokens[i + 1]) {
      assert IsHop(g, p.refs[i], p.tokens[i], p.tokens[i + 1]);
    }
    assert IsHop(g, p.refs[last], p.tokens[last], p.tokens[last + 1]);
    assert p.refs == q.refs + [p.refs[last]];
    assert p.tokens == q.tokens + [p.tokens[last + 1]];
  }

  // ----- what a vertex offers

  lemma {:induction false} UsableToMembers(g: Search, refs: seq<EdgeRef>, to: nat)
    ensures forall ref :: ref in UsableTo(g, refs, to) <==>
      ref in refs && UsableRef(g, ref) && g.adjacency[ref.from][ref.idx].to == to
    ensures NoDup(refs) ==> NoDup(UsableTo(g, refs, to))
  {
    if refs != [] {
      var init, last := refs[..|refs| - 1], refs[|refs| - 1];
      UsableToMembers(g, init, to);
      assert refs == init + [last];
      if NoDup(refs) {
        assert NoDup(init) && last !in init;
      }
    }
  }

  lemma RankedMembers(g: Search, v: nat)
    ensures forall ref :: ref in RankedOutgoing(g, v) <==> ref.from == v && Resolves(g.adjacency, ref)
    ensures NoDup(RankedOutgoing(g, v))
  {
    var refs := RefsOf(g.adjacency, v);
    SortMembers(refs, Trusted(g.adjacency));
    SortKeeps(refs, Trusted(g.adjacency));
    NoDupPermuted(refs, RankedOutgoing(g, v));
    forall ref: EdgeRef | ref.from == v && Resolves(g.adjacency, ref) ensures ref in refs {
      assert refs[ref.idx] == ref;
    }
  }

  /** The usable edges of one pair, before any limit. */
  function AllPairEdges(g: Search, v: nat, to: nat): seq<EdgeRef> {
    Sort(UsableTo(g, RankedOutgoing(g, v), to), Cheaper(g.adjacency))
  }

  lemma AllPairEdgesMembers(g: Search, v: nat, to: nat)
    ensures forall ref :: ref in AllPairEdges(g, v, to) <==> IsHop(g, ref, v, to)
    ensures NoDup(AllPairEdges(g, v, to))
    ensures SortedBy(AllPairEdges(g, v, to), Cheaper(g.adjacency))
  {
    var refs := UsableTo(g, RankedOutgoing(g, v), to);
    RankedMembers(g, v);
    UsableToMembers(g, RankedOutgoing(g, v), to);
    OrdersAreTotal(g.adjacency);
    hide Cheaper, TotalPreorder;
    SortMembers(refs, Cheaper(g.adjacency));
    SortKeeps(refs, Cheaper(g.adjacency));
    SortSorts(refs, Cheaper(g.adjacency));
    NoDupPermuted(refs, AllPairEdges(g, v, to));
  }

  /** The limit per pair keeps usable edges of the pair, each once, and keeps the cheapest:
      an edge is left out only if the limit is reached by edges that are no more expensive. */
  lemma PairKeepsCheapest(g: Search, v: nat, to: nat, ref: EdgeRef)
    ensures NoDup(PairEdges(g, v, to)) && |PairEdges(g, v, to)| <= g.limits.pairEdges
    ensures ref in PairEdges(g, v, to) ==> IsHop(g, ref, v, to)
    ensures IsHop(g, ref, v, to) && ref !in PairEdges(g, v, to) ==>
      && |PairEdges(g, v, to)| == g.limits.pairEdges
      && forall kept :: kept in PairEdges(g, v, to) ==> NoDearerRef(g, kept, ref)
  {
    hide Cheaper;
    AllPairEdgesMembers(g, v, to);
    TakeBest(AllPairEdges(g, v, to), g.limits.pairEdges, Cheaper(g.adjacency), ref);
    hide *;
    forall kept | kept in PairEdges(g, v, to) && Cheaper(g.adjacency)(kept, ref) && IsHop(g, kept, v, to) && IsHop(g, ref, v, to)
      ensures NoDearerRef(g, kept, ref)
    {
      HopsCompare(g, kept, ref);
    }
  }

  /** `ranked_outgoing` lists every edge of the vertex once, the most trusted, then the widest, then the cheapest first. */
  lemma RankedByTrust(g: Search, v: nat)
    ensures var refs := RankedOutgoing(g, v);
      && multiset(refs) == multiset(RefsOf(g.adjacency, v))
      && (forall ref :: ref in refs <==> ref.from == v && Resolves(g.adjacency, ref))
      && (forall i, j :: 0 <= i < j < |refs| ==> NoLessTrusted(g, refs[i], refs[j]))
  {
    var refs := RankedOutgoing(g, v);
    RankedMembers(g, v);
    SortKeeps(RefsOf(g.adjacency, v), Trusted(g.adjacency));
    TrustIsTotal(g.adjacency);
    SortSorts(RefsOf(g.adjacency, v), Trusted(g.adjacency));
    hide RankedOutgoing, RefsOf;
    forall i, j | 0 <= i < j < |refs| ensures NoLessTrusted(g, refs[i], refs[j]) {
      assert refs[i] in refs && refs[j] in refs;
      assert Trusted(g.adjacency)(refs[i], refs[j]);
    }
  }

  ghost predicate NoLessTrusted(g: Search, a: EdgeRef, b: EdgeRef) {
    && Resolves(g.adjacency, a) && Resolves(g.adjacency, b)
    && var x, y := g.adjacency[a.from][a.idx], g.adjacency[b.from][b.idx];
      && x.confidence >= y.confidence
      && (x.confidence == y.confidence ==> x.rate.capacity >= y.rate.capacity)
      && (x.confidence == y.confidence && x.rate.capacity == y.rate.capacity ==> x.rate.weight <= y.rate.weight)
  }

  ghost predicate NoDearerRef(g: Search, a: EdgeRef, b: EdgeRef) {
    && Resolves(g.adjacency, a) && Resolves(g.adjacency, b)
    && NoDearer(g.adjacency[a.from][a.idx], g.adjacency[b.from][b.idx])
  }

  lemma HopsCompare(g: Search, a: EdgeRef, b: EdgeRef)
    requires UsableRef(g, a) && UsableRef(g, b) && Cheaper(g.adjacency)(a, b)
    ensures NoDearerRef(g, a, b)
  {
    CheaperIsNoDearer(g.adjacency, a, b);
  }

  /** Truncating a sorted list leaves out only what is no better than all it keeps. */
  lemma TakeBest<T>(s: seq<T>, n: nat, le: (T, T) -> bool, x: T)
    requires SortedBy(s, le)
    ensures forall y :: y in Take(s, n) ==> y in s
    ensures x in s && x !in Take(s, n) ==> |Take(s, n)| == n && forall y :: y in Take(s, n) ==> le(y, x)
    ensures |s| <= n ==> Take(s, n) == s
    ensures NoDup(s) ==> NoDup(Take(s, n))
    ensures SortedBy(Take(s, n), le)
  {
    var kept := Take(s, n);
    forall i | 0 <= i < |kept| ensures s[i] in kept {
      assert kept[i] == s[i];
    }
  }

  /** Edges to one target are not edges to another. */
  lemma GroupsApart(g: Search, v: nat, targets: seq<nat>, last: nat)
    requires last !in targets
    requires forall ref :: ref in Groups(g, v, targets) <==> exists to :: to in targets && ref in PairEdges(g, v, to)
    ensures forall ref :: ref in Groups(g, v, targets) ==> ref !in PairEdges(g, v, last)
  {
    hide PairEdges, Groups;
    forall ref | ref in Groups(g, v, targets) ensures ref !in PairEdges(g, v, last) {
      var to :| to in targets && ref in PairEdges(g, v, to);
      PairKeepsCheapest(g, v, to, ref);
      PairKeepsCheapest(g, v, last, ref);
    }
  }

  lemma GroupsPush(g: Search, v: nat, targets: seq<nat>, last: nat)
    ensures Groups(g, v, targets + [last]) == Groups(g, v, targets) + PairEdges(g, v, last)
  {
    assert (targets + [last])[..|targets|] == targets;
  }

  lemma {:induction false} GroupsMembers(g: Search, v: nat, targets: seq<nat>)
    requires NoDup(targets)
    ensures forall ref :: ref in Groups(g, v, targets) <==> exists to :: to in targets && ref in PairEdges(g, v, to)
    ensures NoDup(Groups(g, v, targets))
  {
    if targets != [] {
      var init, last := targets[..|targets| - 1], targets[|targets| - 1];
      assert last !in init && targets == init + [last] && NoDup(init);
      GroupsMembers(g, v, init);
      GroupsApart(g, v, init, last);
      GroupsPush(g, v, init, last);
      PairKeepsCheapest(g, v, last, EdgeRef(0, 0));
      hide PairEdges, Groups, NoDup;
      NoDupAppend(Groups(g, v, init), PairEdges(g, v, last));
      GroupsStep(g, v, init, last);
    }
  }

  lemma GroupsStep(g: Search, v: nat, init: seq<nat>, last: nat)
    requires forall ref :: ref in Groups(g, v, init) <==> exists to :: to in init && ref in PairEdges(g, v, to)
    requires Groups(g, v, init + [last]) == Groups(g, v, init) + PairEdges(g, v, last)
    ensures forall ref :: ref in Groups(g, v, init + [last]) <==> exists to :: to in init + [last] && ref in PairEdges(g, v, to)
  {
    hide PairEdges, Groups;
    assert forall to :: to in init + [last] <==> to in init || to == last;
  }

  /** Every reference offered is a usable edge of the vertex, and none is offered twice. */
  lemma OutgoingIsUsable(g: Search, v: nat, ref: EdgeRef)
    requires ValidSearch(g)
    ensures NoDup(Outgoing(g, v))
    ensures ref in Outgoing(g, v) ==> UsableRef(g, ref) && ref.from == v
  {
    hide PairEdges, Cheaper;
    var groups := Groups(g, v, g.order(v));
    GroupsMembers(g, v, g.order(v));
    SortKeeps(groups, Cheaper(g.adjacency));
    SortMembers(groups, Cheaper(g.adjacency));
    NoDupPermuted(groups, Outgoing(g, v));
    if ref in Outgoing(g, v) {
      var to :| to in g.order(v) && ref in PairEdges(g, v, to);
      PairKeepsCheapest(g, v, to, ref);
    }
  }

  /** A vertex offers its edges cheapest first, and the branch limit keeps the front of them. */
  lemma BranchesAreCheapest(g: Search, p: SearchPath, ref: EdgeRef)
    requires ValidSearch(g)
    ensures |Branches(g, p)| <= g.limits.branches
    ensures forall i, j :: 0 <= i < j < |Branches(g, p)| ==> NoDearerRef(g, Branches(g, p)[i], Branches(g, p)[j])
    ensures ref in Outgoing(g, Node(p)) && ref !in Branches(g, p) ==>
      |Branches(g, p)| == g.limits.branches && forall kept :: kept in Branches(g, p) ==> NoDearerRef(g, kept, ref)
  {
    hide Cheaper, Groups, ValidSearch, UsableRef, NoDearerRef, NoDup;
    var v := Node(p);
    OrdersAreTotal(g.adjacency);
    SortSorts(Groups(g, v, g.order(v)), Cheaper(g.adjacency));
    TakeBest(Outgoing(g, v), g.limits.branches, Cheaper(g.adjacency), ref);
    hide Outgoing, Node;
    forall a, b | a in Outgoing(g, v) && b in Outgoing(g, v) && Cheaper(g.adjacency)(a, b) ensures NoDearerRef(g, a, b) {
      OutgoingIsUsable(g, v, a);
      OutgoingIsUsable(g, v, b);
      HopsCompare(g, a, b);
    }
  }

  /** Neither the limit per pair nor the branch limit leaves out an edge of `v`. */
  ghost predicate Fits(g: Search, v: nat) {
    && |Outgoing(g, v)| <= g.limits.branches
    && forall to: nat :: to < |g.adjacency| ==> |AllPairEdges(g, v, to)| <= g.limits.pairEdges
  }

  lemma FitsPair(g: Search, v: nat, to: nat, ref: EdgeRef)
    requires IsHop(g, ref, v, to) && |AllPairEdges(g, v, to)| <= g.limits.pairEdges
    ensures ref in PairEdges(g, v, to)
  {
    AllPairEdgesMembers(g, v, to);
    hide Cheaper, Sort, UsableTo, UsableRef, RankedOutgoing;
    assert PairEdges(g, v, to) == AllPairEdges(g, v, to);
  }

  lemma PairIsOffered(g: Search, v: nat, to: nat, ref: EdgeRef)
    requires NoDup(g.order(v)) && to in g.order(v) && ref in PairEdges(g, v, to)
    ensures ref in Outgoing(g, v)
  {
    hide PairEdges, Cheaper, Sort, NoDup;
    GroupsMembers(g, v, g.order(v));
    SortMembers(Groups(g, v, g.order(v)), Cheaper(g.adjacency));
  }

  lemma OutgoingIsComplete(g: Search, v: nat, ref: EdgeRef)
    requires ValidSearch(g) && Fits(g, v) && UsableRef(g, ref) && ref.from == v
    ensures ref in Take(Outgoing(g, v), g.limits.branches)
  {
    hide Outgoing, AllPairEdges, PairEdges, Usable, NoDup;
    var to := g.adjacency[v][ref.idx].to;
    FitsPair(g, v, to, ref);
    PairIsOffered(g, v, to, ref);
  }

  // ----- what a round produces

  lemma {:induction false} EndingMembers(paths: seq<SearchPath>, target: nat, here: bool)
    ensures forall p :: p in Ending(paths, target, here) <==> p in paths && (Node(p) == target) == here
    ensures NoDup(paths) ==> NoDup(Ending(paths, target, here))
  {
    if paths != [] {
      var init, last := paths[..|paths| - 1], paths[|paths| - 1];
      EndingMembers(init, target, here);
      assert paths == init + [last];
      if NoDup(paths) {
        assert NoDup(init) && last !in init;
      }
    }
  }

  lemma ExtendRefs(g: Search, p: SearchPath, ref: EdgeRef, q: SearchPath)
    requires Extend(g, p, ref) == Some(q)
    ensures q.refs == p.refs + [ref]
  {}

  lemma {:induction false} ExtensionsMembers(g: Search, p: SearchPath, refs: seq<EdgeRef>)
    ensures forall q :: q in Extensions(g, p, refs) <==> exists ref :: ref in refs && Extend(g, p, ref) == Some(q)
  {
    if refs != [] {
      hide Extend;
      var init, last := refs[..|refs| - 1], refs[|refs| - 1];
      ExtensionsMembers(g, p, init);
      assert refs == init + [last];
    }
  }

  lemma {:induction false} ExtensionsNoDup(g: Search, p: SearchPath, refs: seq<EdgeRef>)
    requires NoDup(refs)
    ensures NoDup(Extensions(g, p, refs))
  {
    if refs != [] {
      hide Extend;
      var init, last := refs[..|refs| - 1], refs[|refs| - 1];
      assert refs == init + [last] && last !in init;
      ExtensionsNoDup(g, p, init);
      ExtensionsMembers(g, p, init);
      var next := Extend(g, p, last);
      if next.Some? {
        ExtendRefs(g, p, last, next.value);
        forall q | q in Extensions(g, p, init) ensures q != next.value {
          var ref :| ref in init && Extend(g, p, ref) == Some(q);
          ExtendRefs(g, p, ref, q);
          assert q.refs[|p.refs|] == ref != last == next.value.refs[|p.refs|];
        }
        NoDupPush(Extensions(g, p, init), next.value);
      }
    }
  }

  ghost predicate Offers(g: Search, p: SearchPath, q: SearchPath) {
    exists ref :: ref in Branches(g, p) && Extend(g, p, ref) == Some(q)
  }

  lemma ExpandPush(g: Search, init: seq<SearchPath>, last: SearchPath, q: SearchPath)
    ensures q in Expand(g, init + [last]) <==> q in Expand(g, init) || Offers(g, last, q)
  {
    ExtensionsMembers(g, last, Branches(g, last));
    assert (init + [last])[..|init|] == init;
    hide Extensions, Branches, Extend;
  }

  lemma {:induction false} ExpandMembers(g: Search, frontier: seq<SearchPath>)
    ensures forall q :: q in Expand(g, frontier) <==> exists p :: p in frontier && Offers(g, p, q)
  {
    if frontier != [] {
      var init, last := frontier[..|frontier| - 1], frontier[|frontier| - 1];
      ExpandMembers(g, init);
      assert frontier == init + [last];
      hide Expand, Offers;
      forall q ensures q in Expand(g, frontier) <==> exists p :: p in frontier && Offers(g, p, q) {
        ExpandPush(g, init, last, q);
      }
    }
  }

  /** All frontier paths are simple, have `k` hops, and have not met the target. */
  ghost predicate FrontierSound(g: Search, start: nat, target: nat, k: nat, frontier: seq<SearchPath>) {
    NoDup(frontier) && forall p :: p in frontier ==> SimplePath(g, start, p) && |p.refs| == k && target !in p.tokens
  }

  ghost predicate OutSound(g: Search, start: nat, target: nat, k: nat, out: seq<SearchPath>) {
    NoDup(out) && SortedBy(out, Better()) && forall p :: p in out ==> PathTo(g, start, target, k, p)
  }

  lemma {:induction false} ExpandNoDup(g: Search, start: nat, frontier: seq<SearchPath>)
    requires ValidSearch(g) && NoDup(frontier) && forall p :: p in frontier ==> SimplePath(g, start, p)
    ensures NoDup(Expand(g, frontier))
  {
    if frontier != [] {
      var init, last := frontier[..|frontier| - 1], frontier[|frontier| - 1];
      assert frontier == init + [last] && last !in init;
      hide SimplePath, Extensions, Branches, Extend, ValidSearch;
      ExpandNoDup(g, start, init);
      BranchesNoDup(g, last);
      ExtensionsMembers(g, last, Branches(g, last));
      ExtensionsNoDup(g, last, Branches(g, last));
      ExpandMembers(g, init);
      forall q | q in Expand(g, init) ensures !Offers(g, last, q) {
        var p :| p in init && Offers(g, p, q);
        OfferedOnce(g, start, p, last, q);
      }
      NoDupAppend(Expand(g, init), Extensions(g, last, Branches(g, last)));
    }
  }

  lemma BranchesNoDup(g: Search, p: SearchPath)
    requires ValidSearch(g)
    ensures NoDup(Branches(g, p))
  {
    OutgoingIsUsable(g, Node(p), EdgeRef(0, 0));
  }

  lemma OffersRefs(g: Search, p: SearchPath, q: SearchPath)
    requires Offers(g, p, q)
    ensures q.refs != [] && q.refs[..|q.refs| - 1] == p.refs
  {
    var ref :| ref in Branches(g, p) && Extend(g, p, ref) == Some(q);
    ExtendRefs(g, p, ref, q);
  }

  lemma OfferedOnce(g: Search, start: nat, p: SearchPath, p': SearchPath, q: SearchPath)
    requires SimplePath(g, start, p) && SimplePath(g, start, p') && p != p' && Offers(g, p, q)
    ensures !Offers(g, p', q)
  {
    hide SimplePath, Offers;
    OffersRefs(g, p, q);
    if Offers(g, p', q) {
      OffersRefs(g, p', q);
      SamePath(g, start, p, p');
    }
  }

  /** What a sound frontier offers is one hop longer, simple, and meets the target at most at its end. */
  lemma OffersSound(g: Search, start: nat, target: nat, k: nat, p: SearchPath, q: SearchPath)
    requires ValidSearch(g) && SimplePath(g, start, p) && |p.refs| == k && target !in p.tokens && Offers(g, p, q)
    ensures SimplePath(g, start, q) && |q.refs| == k + 1
    ensures Node(q) != target ==> target !in q.tokens
  {
    var ref :| ref in Branches(g, p) && Extend(g, p, ref) == Some(q);
    OutgoingIsUsable(g, Node(p), ref);
    hide Outgoing;
    ExtendIsSimple(g, start, p, ref);
  }

  lemma ExpandSound(g: Search, start: nat, target: nat, k: nat, frontier: seq<SearchPath>)
    requires ValidSearch(g) && FrontierSound(g, start, target, k, frontier)
    ensures NoDup(Expand(g, frontier))
    ensures forall q :: q in Expand(g, frontier) ==>
      SimplePath(g, start, q) && |q.refs| == k + 1 && (Node(q) != target ==> target !in q.tokens)
  {
    ExpandNoDup(g, start, frontier);
    ExpandMembers(g, frontier);
    hide SimplePath, Offers, ValidSearch, Expand;
    forall q | q in Expand(g, frontier)
      ensures SimplePath(g, start, q) && |q.refs| == k + 1 && (Node(q) != target ==> target !in q.tokens)
    {
      var p :| p in frontier && Offers(g, p, q);
      OffersSound(g, start, target, k, p, q);
    }
  }

  lemma SortedTake(paths: seq<SearchPath>, n: nat)
    ensures var r := Take(Sort(paths, Better()), n);
      && SortedBy(r, Better()) && (NoDup(paths) ==> NoDup(r)) && (forall p :: p in r ==> p in paths)
  {
    OrdersAreTotal([]);
    hide Better, TotalPreorder;
    SortSorts(paths, Better());
    SortKeeps(paths, Better());
    SortMembers(paths, Better());
    var sorted := Sort(paths, Better());
    if NoDup(paths) {
      NoDupPermuted(paths, sorted);
    }
    if paths != [] {
      TakeBest(sorted, n, Better(), paths[0]);
    }
  }

  /** The beam keeps the best of the paths that go on. */
  lemma BeamKeepsBest(g: Search, target: nat, frontier: seq<SearchPath>, p: SearchPath)
    ensures |NextFrontier(g, target, frontier)| <= g.limits.beam
    ensures p in NextFrontier(g, target, frontier) ==> p in Expand(g, frontier) && Node(p) != target
    ensures p in Expand(g, frontier) && Node(p) != target && p !in NextFrontier(g, target, frontier) ==>
      && |NextFrontier(g, target, frontier)| == g.limits.beam
      && forall kept :: kept in NextFrontier(g, target, frontier) ==> NoWorse(kept, p)
  {
    var going := Ending(Expand(g, frontier), target, false);
    EndingMembers(Expand(g, frontier), target, false);
    OrdersAreTotal([]);
    hide Better, TotalPreorder, Expand, Ending, NoWorse;
    SortSorts(going, Better());
    SortMembers(going, Better());
    TakeBest(Sort(going, Better()), g.limits.beam, Better(), p);
    forall a, b | Better()(a, b) ensures NoWorse(a, b) {
      BetterIsNoWorse(a, b);
    }
  }

  lemma FrontierStep(g: Search, start: nat, target: nat, k: nat, frontier: seq<SearchPath>)
    requires ValidSearch(g) && FrontierSound(g, start, target, k, frontier)
    ensures FrontierSound(g, start, target, k + 1, NextFrontier(g, target, frontier))
  {
    ExpandSound(g, start, target, k, frontier);
    hide Expand, Better, SimplePath, ValidSearch;
    EndingMembers(Expand(g, frontier), target, false);
    SortedTake(Ending(Expand(g, frontier), target, false), g.limits.beam);
  }

  lemma OutStep(g: Search, start: nat, target: nat, k: nat, frontier: seq<SearchPath>, out: seq<SearchPath>)
    requires ValidSearch(g) && FrontierSound(g, start, target, k, frontier) && OutSound(g, start, target, k, out)
    ensures OutSound(g, start, target, k + 1, NextOut(g, target, frontier, out))
  {
    ExpandSound(g, start, target, k, frontier);
    hide Expand, Better, SimplePath, ValidSearch;
    var arrived := Ending(Expand(g, frontier), target, true);
    EndingMembers(Expand(g, frontier), target, true);
    forall p | p in out ensures p !in arrived {
      assert |p.refs| <= k;
    }
    NoDupAppend(out, arrived);
    SortedTake(out + arrived, g.limits.topK);
  }

  lemma {:induction false} RoundsSound(g: Search, start: nat, target: nat, k: nat, frontier: seq<SearchPath>,
                                       out: seq<SearchPath>, n: nat)
    requires ValidSearch(g) && FrontierSound(g, start, target, k, frontier) && OutSound(g, start, target, k, out)
    ensures OutSound(g, start, target, k + n, Rounds(g, target, frontier, out, n))
    ensures |Rounds(g, target, frontier, out, n)| <= g.limits.topK
    decreases n
  {
    hide FrontierSound, NextFrontier, NextOut, ValidSearch, SimplePath, Better;
    if n == 0 || frontier == [] {
      SortedTake(out, g.limits.topK);
    } else {
      FrontierStep(g, start, target, k, frontier);
      OutStep(g, start, target, k, frontier, out);
      RoundsSound(g, start, target, k + 1, NextFrontier(g, target, frontier), NextOut(g, target, frontier, out), n - 1);
    }
  }

  lemma StartIsSimple(g: Search, start: nat)
    ensures SimplePath(g, start, StartPath(start))
  {}

  /** Under any limits: the search returns simple usable paths between the endpoints within the
      hop limit, with their true score and capacity, best first, none twice. */
  lemma TopPathsSound(g: Search, start: nat, target: nat, maxHops: nat)
    requires ValidSearch(g)
    ensures OutSound(g, start, target, maxHops, TopPaths(g, start, target, maxHops))
    ensures start != target ==> |TopPaths(g, start, target, maxHops)| <= g.limits.topK
    ensures var r := TopPaths(g, start, target, maxHops); forall i, j :: 0 <= i < j < |r| ==> NoWorse(r[i], r[j])
  {
    StartIsSimple(g, start);
    if start != target {
      RoundsSound(g, start, target, 0, [StartPath(start)], [], maxHops);
    }
    RankedByMerit(TopPaths(g, start, target, maxHops));
  }

  lemma RankedByMerit(paths: seq<SearchPath>)
    requires SortedBy(paths, Better())
    ensures forall i, j :: 0 <= i < j < |paths| ==> NoWorse(paths[i], paths[j])
  {
    forall i, j | 0 <= i < j < |paths| ensures NoWorse(paths[i], paths[j]) {
      BetterIsNoWorse(paths[i], paths[j]);
    }
  }

  /** In plain terms: a hop leads from one token to the next along a healthy edge that quotes a rate, can take
      something, and can take the smallest trade of the token it starts from. */
  lemma HopInPlainTerms(g: Search, start: nat, p: SearchPath, i: nat)
    requires SimplePath(g, start, p) && i < |p.refs|
    ensures Resolves(g.adjacency, p.refs[i]) && p.refs[i].from == p.tokens[i]
    ensures var edge := g.adjacency[p.refs[i].from][p.refs[i].idx];
      && edge.to == p.tokens[i + 1] && edge.healthy && edge.rate.spotRate > 0 && edge.rate.capacity > 0
      && (edge.from < |g.minTrade| ==> g.minTrade[edge.from].None? || edge.rate.capacity >= g.minTrade[edge.from].value)
  {
    assert IsHop(g, p.refs[i], p.tokens[i], p.tokens[i + 1]);
  }

  /** The plain sum of the weights. */
  function PlainWeight(g: Search, refs: seq<EdgeRef>): int {
    if refs == [] then 0 else Weight(g, refs[0]) + PlainWeight(g, refs[1..])
  }

  lemma {:induction false} PlainPush(g: Search, refs: seq<EdgeRef>, ref: EdgeRef)
    ensures PlainWeight(g, refs + [ref]) == PlainWeight(g, refs) + Weight(g, ref)
  {
    if refs == [] {
      assert [] + [ref] == [ref];
      assert PlainWeight(g, []) == 0;
    } else {
      assert (refs + [ref])[1..] == refs[1..] + [ref];
      PlainPush(g, refs[1..], ref);
    }
  }

  /** No partial sum leaves 64 bits. */
  ghost predicate SumsFit(g: Search, refs: seq<EdgeRef>) {
    forall i :: 0 <= i <= |refs| ==> I64_MIN <= PlainWeight(g, refs[..i]) <= I64_MAX
  }

  /** While no partial sum leaves 64 bits the score is the sum of the weights. */
  lemma {:induction false} ScoreIsSum(g: Search, refs: seq<EdgeRef>)
    requires SumsFit(g, refs)
    ensures TotalWeight(g, refs) == PlainWeight(g, refs)
  {
    if refs != [] {
      var init, last := refs[..|refs| - 1], refs[|refs| - 1];
      hide Weight;
      assert refs == init + [last] && refs[..|refs|] == refs;
      forall i | 0 <= i <= |init| ensures I64_MIN <= PlainWeight(g, init[..i]) <= I64_MAX {
        assert init[..i] == refs[..i];
      }
      ScoreIsSum(g, init);
      PlainPush(g, init, last);
    }
  }

  /** The capacity of a path is the least capacity on it. */
  lemma {:induction false} NarrowestIsLeast(g: Search, refs: seq<EdgeRef>)
    ensures forall i :: 0 <= i < |refs| ==> Narrowest(g, refs) <= Capacity(g, refs[i])
    ensures Narrowest(g, refs) < U128_MAX ==> exists i :: 0 <= i < |refs| && Narrowest(g, refs) == Capacity(g, refs[i])
    ensures Narrowest(g, refs) <= U128_MAX
  {
    if refs != [] {
      NarrowestIsLeast(g, refs[..|refs| - 1]);
    }
  }

  // ----- completeness

  lemma LastIsNew(tokens: seq<nat>, x: nat)
    requires tokens != [] && NoDup(tokens)
    ensures x in tokens[..|tokens| - 1] ==> x in tokens && tokens[|tokens| - 1] != x
  {}

  /** In no round does the beam cut the frontier, or a branch or pair limit an expansion. */
  ghost predicate NothingCut(g: Search, target: nat, frontier: seq<SearchPath>, n: nat)
    decreases n
  {
    n == 0 || frontier == [] ||
    (&& (forall p :: p in frontier ==> Fits(g, Node(p)))
     && |Ending(Expand(g, frontier), target, false)| <= g.limits.beam
     && NothingCut(g, target, NextFrontier(g, target, frontier), n - 1))
  }

  /** Every simple path of `k` hops that has not met the target is in the frontier. */
  ghost predicate FrontierFull(g: Search, start: nat, target: nat, k: nat, frontier: seq<SearchPath>) {
    forall p :: SimplePath(g, start, p) && |p.refs| == k && target !in p.tokens ==> p in frontier
  }

  ghost predicate KeptOrBeaten(limits: SearchLimits, out: seq<SearchPath>, p: SearchPath) {
    p in out || (|out| == limits.topK && forall q :: q in out ==> Better()(q, p))
  }

  /** Every path to the target of at most `k` hops is kept, or `topK` better ones are. */
  ghost predicate OutBest(g: Search, start: nat, target: nat, k: nat, out: seq<SearchPath>) {
    forall p :: PathTo(g, start, target, k, p) ==> KeptOrBeaten(g.limits, out, p)
  }

  /** A full frontier offers every simple path that is one hop longer. */
  lemma ExpandFull(g: Search, start: nat, target: nat, k: nat, frontier: seq<SearchPath>, p: SearchPath)
    requires ValidSearch(g) && FrontierFull(g, start, target, k, frontier)
    requires forall q :: q in frontier ==> Fits(g, Node(q))
    requires SimplePath(g, start, p) && |p.refs| == k + 1 && (target in p.tokens ==> Node(p) == target)
    ensures p in Expand(g, frontier)
  {
    hide Expand, Outgoing, ValidSearch, Fits, Extend;
    ShorterExtends(g, start, p);
    var q, ref := Shorter(p, g), p.refs[|p.refs| - 1];
    LastIsNew(p.tokens, target);
    OutgoingIsComplete(g, Node(q), ref);
    assert Offers(g, q, p);
    ExpandMembers(g, frontier);
  }

  lemma FrontierStaysFull(g: Search, start: nat, target: nat, k: nat, frontier: seq<SearchPath>)
    requires ValidSearch(g) && FrontierFull(g, start, target, k, frontier)
    requires forall q :: q in frontier ==> Fits(g, Node(q))
    requires |Ending(Expand(g, frontier), target, false)| <= g.limits.beam
    ensures FrontierFull(g, start, target, k + 1, NextFrontier(g, target, frontier))
  {
    var going := Ending(Expand(g, frontier), target, false);
    EndingMembers(Expand(g, frontier), target, false);
    SortMembers(going, Better());
    hide Expand, Better, SimplePath, ValidSearch, Fits;
    assert Take(Sort(going, Better()), g.limits.beam) == Sort(going, Better());
    forall p | SimplePath(g, start, p) && |p.refs| == k + 1 && target !in p.tokens
      ensures p in NextFrontier(g, target, frontier)
    {
      NodeInTokens(g, start, p);
      ExpandFull(g, start, target, k, frontier, p);
    }
  }

  lemma NodeInTokens(g: Search, start: nat, p: SearchPath)
    requires SimplePath(g, start, p)
    ensures Node(p) in p.tokens
  {}

  /** Adding arrivals and truncating keeps the best. */
  lemma MergeKeepsBest(limits: SearchLimits, out: seq<SearchPath>, arrived: seq<SearchPath>, p: SearchPath)
    requires SortedBy(out, Better()) && (p in arrived || KeptOrBeaten(limits, out, p))
    ensures KeptOrBeaten(limits, Take(Sort(out + arrived, Better()), limits.topK), p)
  {
    OrdersAreTotal([]);
    var sorted := Sort(out + arrived, Better());
    var kept := Take(sorted, limits.topK);
    SortSorts(out + arrived, Better());
    SortMembers(out + arrived, Better());
    TakeBest(sorted, limits.topK, Better(), p);
    if p !in out + arrived {
      forall q | q in kept ensures Better()(q, p) {
        var i :| 0 <= i < |kept| && kept[i] == q;
        AppendLowers(out, arrived, Better(), i);
        assert out[i] in out;
      }
    }
  }

  lemma OutStaysBest(g: Search, start: nat, target: nat, k: nat, frontier: seq<SearchPath>, out: seq<SearchPath>)
    requires ValidSearch(g) && FrontierFull(g, start, target, k, frontier)
    requires SortedBy(out, Better()) && OutBest(g, start, target, k, out)
    requires forall q :: q in frontier ==> Fits(g, Node(q))
    ensures OutBest(g, start, target, k + 1, NextOut(g, target, frontier, out))
  {
    hide Expand, Better, SimplePath, ValidSearch, Fits, KeptOrBeaten;
    var arrived := Ending(Expand(g, frontier), target, true);
    EndingMembers(Expand(g, frontier), target, true);
    forall p | PathTo(g, start, target, k + 1, p)
      ensures KeptOrBeaten(g.limits, NextOut(g, target, frontier, out), p)
    {
      if |p.refs| == k + 1 {
        ExpandFull(g, start, target, k, frontier, p);
      }
      MergeKeepsBest(g.limits, out, arrived, p);
    }
  }

  /** An empty full frontier leaves nothing longer to find. */
  lemma {:induction false} NothingLonger(g: Search, start: nat, target: nat, k: nat, p: SearchPath)
    requires FrontierFull(g, start, target, k, []) && SimplePath(g, start, p) && |p.refs| > k
    requires target in p.tokens ==> Node(p) == target
    ensures false
    decreases |p.refs|
  {
    ShorterExtends(g, start, p);
    var q := Shorter(p, g);
    LastIsNew(p.tokens, target);
    if |q.refs| > k {
      NothingLonger(g, start, target, k, q);
    }
  }

  lemma {:induction false} RoundsBest(g: Search, start: nat, target: nat, k: nat, frontier: seq<SearchPath>,
                                      out: seq<SearchPath>, n: nat)
    requires ValidSearch(g) && FrontierSound(g, start, target, k, frontier) && OutSound(g, start, target, k, out)
    requires FrontierFull(g, start, target, k, frontier) && OutBest(g, start, target, k, out)
    requires NothingCut(g, target, frontier, n)
    ensures OutBest(g, start, target, k + n, Rounds(g, target, frontier, out, n))
    decreases n
  {
    hide FrontierSound, FrontierFull, NextFrontier, NextOut, ValidSearch, SimplePath, Better, KeptOrBeaten, Expand, Fits;
    if n == 0 || frontier == [] {
      forall p | PathTo(g, start, target, k + n, p)
        ensures KeptOrBeaten(g.limits, Take(Sort(out, Better()), g.limits.topK), p)
      {
        if |p.refs| > k {
          NothingLonger(g, start, target, k, p);
        }
        assert out + [] == out;
        MergeKeepsBest(g.limits, out, [], p);
      }
    } else {
      FrontierStep(g, start, target, k, frontier);
      OutStep(g, start, target, k, frontier, out);
      FrontierStaysFull(g, start, target, k, frontier);
      OutStaysBest(g, start, target, k, frontier, out);
      RoundsBest(g, start, target, k + 1, NextFrontier(g, target, frontier), NextOut(g, target, frontier, out), n - 1);
    }
  }

  /** When branch, beam and pair limits cut nothing, the result is the `topK` best simple paths:
      a path is missing only if `topK` paths that are at least as good are there. In particular
      a result shorter than `topK` holds every simple path. */
  lemma TopPathsComplete(g: Search, start: nat, target: nat, maxHops: nat, p: SearchPath)
    requires ValidSearch(g) && start != target && NothingCut(g, target, [StartPath(start)], maxHops)
    requires PathTo(g, start, target, maxHops, p)
    ensures KeptOrBeaten(g.limits, TopPaths(g, start, target, maxHops), p)
    ensures var r := TopPaths(g, start, target, maxHops);
      p in r || (|r| == g.limits.topK && forall q :: q in r ==> NoWorse(q, p))
  {
    TopIsBest(g, start, target, maxHops, p);
    hide NothingCut, TopPaths, Better;
    forall q | Better()(q, p) ensures NoWorse(q, p) {
      BetterIsNoWorse(q, p);
    }
  }

  lemma TopIsBest(g: Search, start: nat, target: nat, maxHops: nat, p: SearchPath)
    requires ValidSearch(g) && start != target && NothingCut(g, target, [StartPath(start)], maxHops)
    requires PathTo(g, start, target, maxHops, p)
    ensures KeptOrBeaten(g.limits, TopPaths(g, start, target, maxHops), p)
  {
    hide NothingCut, KeptOrBeaten;
    var begin := StartPath(start);
    forall q | SimplePath(g, start, q) && |q.refs| == 0 ensures q == begin {
      assert q.refs == [] && q.tokens == [start];
    }
    assert FrontierFull(g, start, target, 0, [begin]);
    assert FrontierSound(g, start, target, 0, [begin]);
    RoundsBest(g, start, target, 0, [begin], [], maxHops);
  }

  // ----- limits that never cut

  /** Room for every edge of a vertex, and in the beam for every walk of `n` hops. */
  ghost predicate Roomy(g: Search, degree: nat, n: nat) {
    && (forall v :: 0 <= v < |g.adjacency| ==> |g.adjacency[v]| <= degree)
    && degree <= g.limits.branches && degree <= g.limits.pairEdges && Pow(degree, n) <= g.limits.beam
  }

  lemma {:induction false} UsableToShort(g: Search, refs: seq<EdgeRef>, to: nat)
    ensures |UsableTo(g, refs, to)| <= |refs|
  {
    if refs != [] {
      UsableToShort(g, refs[..|refs| - 1], to);
    }
  }

  lemma RefsOfMembers(adjacency: seq<seq<Edge>>, v: nat, ref: EdgeRef)
    requires ref.from == v && Resolves(adjacency, ref)
    ensures ref in RefsOf(adjacency, v)
  {
    assert RefsOf(adjacency, v)[ref.idx] == ref;
  }

  lemma RoomyFits(g: Search, degree: nat, n: nat, v: nat)
    requires ValidSearch(g) && Roomy(g, degree, n)
    ensures Fits(g, v) && |Outgoing(g, v)| <= degree
  {
    var refs := RefsOf(g.adjacency, v);
    hide Outgoing, Usable, Cheaper, ValidSearch;
    forall ref | ref in Outgoing(g, v) ensures ref in refs {
      OutgoingIsUsable(g, v, ref);
      RefsOfMembers(g.adjacency, v, ref);
    }
    OutgoingIsUsable(g, v, EdgeRef(0, 0));
    NoDupFits(Outgoing(g, v), refs);
    forall to: nat | to < |g.adjacency| ensures |AllPairEdges(g, v, to)| <= g.limits.pairEdges {
      UsableToShort(g, RankedOutgoing(g, v), to);
    }
  }

  lemma {:induction false} ExtensionsShort(g: Search, p: SearchPath, refs: seq<EdgeRef>)
    ensures |Extensions(g, p, refs)| <= |refs|
  {
    if refs != [] {
      hide Extend;
      ExtensionsShort(g, p, refs[..|refs| - 1]);
    }
  }

  lemma {:induction false} EndingShort(paths: seq<SearchPath>, target: nat, here: bool)
    ensures |Ending(paths, target, here)| <= |paths|
  {
    if paths != [] {
      EndingShort(paths[..|paths| - 1], target, here);
    }
  }

  lemma BranchesShort(g: Search, degree: nat, n: nat, p: SearchPath)
    requires ValidSearch(g) && Roomy(g, degree, n)
    ensures |Extensions(g, p, Branches(g, p))| <= degree
  {
    hide Outgoing, Roomy, ValidSearch, Fits, Extensions;
    RoomyFits(g, degree, n, Node(p));
    ExtensionsShort(g, p, Branches(g, p));
  }

  lemma {:induction false} ExpandShort(g: Search, degree: nat, n: nat, frontier: seq<SearchPath>)
    requires ValidSearch(g) && Roomy(g, degree, n)
    ensures |Expand(g, frontier)| <= |frontier| * degree
  {
    if frontier != [] {
      hide Roomy, ValidSearch, Extensions, Branches;
      var init, last := frontier[..|frontier| - 1], frontier[|frontier| - 1];
      ExpandShort(g, degree, n, init);
      BranchesShort(g, degree, n, last);
      ExpandLength(g, frontier);
      OneMore(|init|, degree);
    }
  }

  lemma ExpandLength(g: Search, frontier: seq<SearchPath>)
    requires frontier != []
    ensures var init, last := frontier[..|frontier| - 1], frontier[|frontier| - 1];
      |Expand(g, frontier)| == |Expand(g, init)| + |Extensions(g, last, Branches(g, last))|
  {
    hide Extensions, Branches;
  }

  lemma OneMore(n: nat, d: nat)
    ensures (n + 1) * d == n * d + d
  {}

  lemma RoomForNext(frontier: nat, next: nat, kept: nat, degree: nat, n: nat, beam: nat)
    requires n > 0 && next <= frontier * degree && frontier * Pow(degree, n) <= beam && kept <= next
    ensures next <= beam && kept * Pow(degree, n - 1) <= beam
  {
    MulMono(kept, next, Pow(degree, n - 1));
    var rest := Pow(degree, n - 1);
    MulMono(next, frontier * degree, rest);
    assert frontier * degree * rest == frontier * (degree * rest);
    if degree > 0 {
      PowPositive(degree, n - 1);
      MulMono(1, rest, next);
    }
  }

  lemma {:induction false} PowPositive(base: nat, n: nat)
    requires base > 0
    ensures Pow(base, n) > 0
  {
    if n > 0 {
      PowPositive(base, n - 1);
    }
  }

  lemma {:induction false} RoomyRounds(g: Search, degree: nat, maxHops: nat, target: nat, frontier: seq<SearchPath>, n: nat)
    requires ValidSearch(g) && Roomy(g, degree, maxHops) && |frontier| * Pow(degree, n) <= g.limits.beam
    ensures NothingCut(g, target, frontier, n)
    decreases n
  {
    if n > 0 && frontier != [] {
      var next := Ending(Expand(g, frontier), target, false);
      ExpandShort(g, degree, maxHops, frontier);
      EndingShort(Expand(g, frontier), target, false);
      hide Expand, Roomy, ValidSearch, Fits, Ending, Pow, Sort, Better;
      assert |NextFrontier(g, target, frontier)| <= |next|;
      RoomForNext(|frontier|, |next|, |NextFrontier(g, target, frontier)|, degree, n, g.limits.beam);
      RoomyRounds(g, degree, maxHops, target, NextFrontier(g, target, frontier), n - 1);
      forall p | p in frontier ensures Fits(g, Node(p)) {
        RoomyFits(g, degree, maxHops, Node(p));
      }
    }
  }

  /** A condition on the limits alone: no search from any start is cut when branch and pair limits
      reach the largest out-degree and the beam its power to the number of hops. */
  lemma RoomyLimitsNeverCut(g: Search, degree: nat, start: nat, target: nat, maxHops: nat)
    requires ValidSearch(g) && Roomy(g, degree, maxHops)
    ensures NothingCut(g, target, [StartPath(start)], maxHops)
  {
    RoomyRounds(g, degree, maxHops, target, [StartPath(start)], maxHops);
  }
}
