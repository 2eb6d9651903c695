/** Reachability from and to the cycle anchors (`src/graph/distance_cache.rs`). */
module DistanceCache {
  import opened Common
  import opened GraphModel

  type Neighbours = seq<seq<nat>>

  ghost predicate Closed(next: Neighbours) {
    forall u, k :: 0 <= u < |next| && 0 <= k < |next[u]| ==> next[u][k] < |next|
  }

  ghost predicate IsWalk(next: Neighbours, p: seq<nat>) {
    && p != []
    && (forall i :: 0 <= i < |p| ==> p[i] < |next|)
    && (forall i :: 0 <= i < |p| - 1 ==> p[i + 1] in next[p[i]])
  }

  ghost predicate IsWalkBetween(next: Neighbours, p: seq<nat>, a: nat, b: nat) {
    IsWalk(next, p) && p[0] == a && p[|p| - 1] == b
  }

  /** A directed path leads from `a` to `b`. */
  ghost predicate Reaches(next: Neighbours, a: nat, b: nat) {
    exists p: seq<nat> :: IsWalkBetween(next, p, a, b)
  }

  ghost predicate ReachedFrom(next: Neighbours, anchors: seq<nat>, v: nat) {
    exists a :: a in anchors && Reaches(next, a, v)
  }

  lemma ReachesItself(next: Neighbours, a: nat)
    requires a < |next|
    ensures Reaches(next, a, a)
  {
    assert IsWalkBetween(next, [a], a, a);
  }

  lemma ReachesFurther(next: Neighbours, a: nat, b: nat, c: nat)
    requires Closed(next) && Reaches(next, a, b) && b < |next| && c in next[b]
    ensures Reaches(next, a, c)
  {
    var p: seq<nat> :| IsWalkBetween(next, p, a, b);
    var k :| 0 <= k < |next[b]| && next[b][k] == c;
    assert IsWalkBetween(next, p + [c], a, c);
  }

  /** A set that holds `a` and is closed under edges holds everything `a` reaches. */
  lemma {:induction false} ClosedSetHoldsWalk(next: Neighbours, marks: seq<bool>, p: seq<nat>)
    requires |marks| == |next| && IsWalk(next, p) && marks[p[0]]
    requires forall u, k :: 0 <= u < |next| && marks[u] && 0 <= k < |next[u]| ==> next[u][k] < |next| && marks[next[u][k]]
    ensures marks[p[|p| - 1]]
  {
    if |p| > 1 {
      var init := p[..|p| - 1];
      ClosedSetHoldsWalk(next, marks, init);
      var u := init[|init| - 1];
      assert p[|p| - 1] in next[u];
      var k :| 0 <= k < |next[u]| && next[u][k] == p[|p| - 1];
    }
  }

  function CountFalse(s: seq<bool>): nat {
    if s == [] then 0 else CountFalse(s[..|s| - 1]) + (if s[|s| - 1] then 0 else 1)
  }

  lemma {:induction false} CountFalseUpdate(s: seq<bool>, i: nat)
    requires i < |s| && !s[i]
    ensures CountFalse(s[i := true]) == CountFalse(s) - 1
  {
    var init := s[..|s| - 1];
    if i == |s| - 1 {
      assert s[i := true][..|s| - 1] == init;
    } else {
      CountFalseUpdate(init, i);
      assert s[i := true][..|s| - 1] == init[i := true];
    }
  }

  // ----- breadth-first marking

  /** Every marked vertex is reached, and every anchor is marked. */
  ghost predicate MarksSound(next: Neighbours, anchors: seq<nat>, marks: seq<bool>) {
    && |marks| == |next|
    && (forall v :: 0 <= v < |marks| && marks[v] ==> ReachedFrom(next, anchors, v))
  }

  /** Marked vertices that are neither queued nor `open` have all their neighbours marked. */
  ghost predicate Expanded(next: Neighbours, marks: seq<bool>, queue: seq<nat>, open: Option<nat>) {
    && |marks| == |next|
    && forall u, k :: 0 <= u < |next| && marks[u] && u !in queue && open != Some(u) && 0 <= k < |next[u]| ==>
         next[u][k] < |next| && marks[next[u][k]]
  }

  ghost predicate QueueMarked(marks: seq<bool>, queue: seq<nat>) {
    forall i :: 0 <= i < |queue| ==> queue[i] < |marks| && marks[queue[i]]
  }

  /** The state of the loops: marks are sound, the queue is marked, and what is neither queued nor
      `open` is expanded. */
  ghost predicate Marking(next: Neighbours, anchors: seq<nat>, marks: seq<bool>, queue: seq<nat>, open: Option<nat>) {
    MarksSound(next, anchors, marks) && Expanded(next, marks, queue, open) && QueueMarked(marks, queue)
  }

  lemma NothingMarked(next: Neighbours, anchors: seq<nat>, marks: seq<bool>)
    requires |marks| == |next| && forall v :: 0 <= v < |marks| ==> !marks[v]
    ensures Marking(next, anchors, marks, [], None)
  {}

  lemma MarkAndQueue(next: Neighbours, anchors: seq<nat>, marks: seq<bool>, queue: seq<nat>, open: Option<nat>, v: nat)
    requires Marking(next, anchors, marks, queue, open) && v < |marks| && ReachedFrom(next, anchors, v)
    ensures Marking(next, anchors, marks[v := true], queue + [v], open)
  {
    hide ReachedFrom;
    assert v in queue + [v];
    assert forall u :: u in queue ==> u in queue + [v];
  }

  lemma OpenFirst(next: Neighbours, anchors: seq<nat>, marks: seq<bool>, queue: seq<nat>)
    requires Marking(next, anchors, marks, queue, None) && queue != []
    ensures queue[0] < |next| == |marks| && marks[queue[0]] && ReachedFrom(next, anchors, queue[0])
    ensures Marking(next, anchors, marks, queue[1..], Some(queue[0]))
  {
    hide ReachedFrom;
    assert forall u :: u in queue ==> u == queue[0] || u in queue[1..];
  }

  lemma CloseNode(next: Neighbours, anchors: seq<nat>, marks: seq<bool>, queue: seq<nat>, node: nat)
    requires Marking(next, anchors, marks, queue, Some(node)) && node < |next|
    requires forall k :: 0 <= k < |next[node]| ==> next[node][k] < |marks| && marks[next[node][k]]
    ensures Marking(next, anchors, marks, queue, None)
  {
    hide ReachedFrom;
  }

  /** When the queue is empty, the marks are exact. */
  lemma MarksExact(next: Neighbours, anchors: seq<nat>, marks: seq<bool>)
    requires Marking(next, anchors, marks, [], None)
    requires forall a :: a in anchors ==> a < |marks| && marks[a]
    ensures |marks| == |next| && forall v :: 0 <= v < |next| ==> (marks[v] <==> ReachedFrom(next, anchors, v))
  {
    hide ReachedFrom;
    forall v | 0 <= v < |next| && ReachedFrom(next, anchors, v) ensures marks[v] {
      ReachedIsMarked(next, anchors, marks, v);
    }
  }

  /** One of the two search loops: queue the anchors, then mark neighbours until the queue is empty. */
  method MarkReachable(next: Neighbours, anchors: seq<nat>) returns (marks: array<bool>)
    requires Closed(next) && forall a :: a in anchors ==> a < |next|
    ensures fresh(marks) && marks.Length == |next|
    ensures forall v :: 0 <= v < |next| ==> (marks[v] <==> ReachedFrom(next, anchors, v))
  {
    hide ReachedFrom, Marking, CountFalse;
    marks := new bool[|next|](_ => false);
    var queue: seq<nat> := [];
    NothingMarked(next, anchors, marks[..]);
    for i := 0 to |anchors|
      invariant Marking(next, anchors, marks[..], queue, None)
      invariant forall j :: 0 <= j < i ==> anchors[j] < marks.Length && marks[anchors[j]]
    {
      assert anchors[i] in anchors;
      AnchorReached(next, anchors, anchors[i]);
      MarkAndQueue(next, anchors, marks[..], queue, None, anchors[i]);
      ghost var before := marks[..];
      marks[anchors[i]] := true;
      assert marks[..] == before[anchors[i] := true];
      queue := queue + [anchors[i]];
    }

    while queue != []
      invariant Marking(next, anchors, marks[..], queue, None)
      invariant forall a :: a in anchors ==> marks[a]
      decreases CountFalse(marks[..]), |queue|
    {
      var node := queue[0];
      ghost var before, size := marks[..], |queue|;
      OpenFirst(next, anchors, marks[..], queue);
      queue := queue[1..];
      for k := 0 to |next[node]|
        invariant node < |next| && Marking(next, anchors, marks[..], queue, Some(node))
        invariant forall a :: a in anchors ==> marks[a]
        invariant forall j :: 0 <= j < k ==> marks[next[node][j]]
        invariant CountFalse(marks[..]) < CountFalse(before) || (marks[..] == before && |queue| == size - 1)
      {
        var to := next[node][k];
        if !marks[to] {
          NeighbourReached(next, anchors, node, to);
          CountFalseUpdate(marks[..], to);
          MarkAndQueue(next, anchors, marks[..], queue, Some(node), to);
          ghost var unmarked := marks[..];
          marks[to] := true;
          assert marks[..] == unmarked[to := true];
          queue := queue + [to];
        }
      }
      CloseNode(next, anchors, marks[..], queue, node);
    }
    MarksExact(next, anchors, marks[..]);
  }

  lemma AnchorReached(next: Neighbours, anchors: seq<nat>, a: nat)
    requires a in anchors && a < |next|
    ensures ReachedFrom(next, anchors, a)
  {
    ReachesItself(next, a);
  }

  lemma NeighbourReached(next: Neighbours, anchors: seq<nat>, u: nat, v: nat)
    requires Closed(next) && u < |next| && v in next[u] && ReachedFrom(next, anchors, u)
    ensures ReachedFrom(next, anchors, v)
  {
    var a :| a in anchors && Reaches(next, a, u);
    ReachesFurther(next, a, u, v);
  }

  lemma ReachedIsMarked(next: Neighbours, anchors: seq<nat>, marks: seq<bool>, v: nat)
    requires Expanded(next, marks, [], None) && ReachedFrom(next, anchors, v)
    requires forall a :: a in anchors ==> a < |marks| && marks[a]
    ensures v < |marks| && marks[v]
  {
    var a :| a in anchors && Reaches(next, a, v);
    var p: seq<nat> :| IsWalkBetween(next, p, a, v);
    ClosedSetHoldsWalk(next, marks, p);
  }

  // ----- the two directions of the graph

  function TargetsOf(edges: seq<Edge>): seq<nat> {
    seq(|edges|, k requires 0 <= k < |edges| => edges[k].to)
  }

  function SourcesOf(refs: seq<EdgeRef>): seq<nat> {
    seq(|refs|, k requires 0 <= k < |refs| => refs[k].from)
  }

  /** Forward: along `adjacency`. */
  function Successors(g: GraphSnapshot): Neighbours {
    seq(|g.ix.adjacency|, u requires 0 <= u < |g.ix.adjacency| => TargetsOf(g.ix.adjacency[u]))
  }

  /** Backward: along `reverse_adj`. */
  function Predecessors(g: GraphSnapshot): Neighbours {
    seq(|g.ix.reverseAdj|, v requires 0 <= v < |g.ix.reverseAdj| => SourcesOf(g.ix.reverseAdj[v]))
  }

  /** The reverse index mirrors the adjacency lists. */
  lemma PredecessorsMirror(g: GraphSnapshot, u: nat, v: nat)
    requires ValidSnapshot(g) && u < |g.tokens| && v < |g.tokens|
    ensures u in Predecessors(g)[v] <==> v in Successors(g)[u]
  {
    assert ExactView(g.ix.adjacency, g.ix.reverseAdj[v], ByTarget(v));
    var refs, edges := g.ix.reverseAdj[v], g.ix.adjacency[u];
    if u in Predecessors(g)[v] {
      var k :| 0 <= k < |refs| && refs[k].from == u;
      assert refs[k] in refs;
      assert TargetsOf(edges)[refs[k].idx] == v;
    }
    if v in Successors(g)[u] {
      var k :| 0 <= k < |edges| && edges[k].to == v;
      assert EdgeRef(u, k) in refs;
      var j :| 0 <= j < |refs| && refs[j] == EdgeRef(u, k);
      assert SourcesOf(refs)[j] == u;
    }
  }

  lemma NeighboursClosed(g: GraphSnapshot)
    requires ValidSnapshot(g)
    ensures Closed(Successors(g)) && Closed(Predecessors(g))
    ensures |Successors(g)| == |Predecessors(g)| == |g.tokens|
  {
    forall v, k | 0 <= v < |g.tokens| && 0 <= k < |Predecessors(g)[v]| ensures Predecessors(g)[v][k] < |g.tokens| {
      assert ExactView(g.ix.adjacency, g.ix.reverseAdj[v], ByTarget(v));
      assert g.ix.reverseAdj[v][k] in g.ix.reverseAdj[v];
    }
  }

  function Reversed(p: seq<nat>): (r: seq<nat>)
    ensures |r| == |p|
    ensures forall i :: 0 <= i < |p| ==> r[i] == p[|p| - 1 - i]
  {
    seq(|p|, i requires 0 <= i < |p| => p[|p| - 1 - i])
  }

  /** A walk against the edges is a walk along them, read backwards. */
  lemma WalkReverses(g: GraphSnapshot, p: seq<nat>, forward: bool)
    requires ValidSnapshot(g)
    requires IsWalk(if forward then Successors(g) else Predecessors(g), p)
    ensures IsWalk(if forward then Predecessors(g) else Successors(g), Reversed(p))
  {
    NeighboursClosed(g);
    var r := Reversed(p);
    forall i | 0 <= i < |r| - 1
      ensures r[i + 1] in (if forward then Predecessors(g) else Successors(g))[r[i]]
    {
      StepReverses(g, p, |p| - 2 - i, forward);
    }
  }

  lemma StepReverses(g: GraphSnapshot, p: seq<nat>, j: nat, forward: bool)
    requires ValidSnapshot(g) && j + 1 < |p|
    requires IsWalk(if forward then Successors(g) else Predecessors(g), p)
    ensures p[j + 1] < |g.tokens| && p[j] in (if forward then Predecessors(g) else Successors(g))[p[j + 1]]
  {
    NeighboursClosed(g);
    hide ValidSnapshot, Successors, Predecessors;
    assert p[j + 1] in (if forward then Successors(g) else Predecessors(g))[p[j]];
    PredecessorsMirror(g, if forward then p[j] else p[j + 1], if forward then p[j + 1] else p[j]);
  }

  lemma BackwardIsForward(g: GraphSnapshot, a: nat, b: nat)
    requires ValidSnapshot(g)
    ensures Reaches(Predecessors(g), a, b) <==> Reaches(Successors(g), b, a)
  {
    if Reaches(Predecessors(g), a, b) {
      var p: seq<nat> :| IsWalkBetween(Predecessors(g), p, a, b);
      WalkReverses(g, p, false);
      assert IsWalkBetween(Successors(g), Reversed(p), b, a);
    }
    if Reaches(Successors(g), b, a) {
      var p: seq<nat> :| IsWalkBetween(Successors(g), p, b, a);
      WalkReverses(g, p, true);
      assert IsWalkBetween(Predecessors(g), Reversed(p), a, b);
    }
  }

  // ----- the cache

  ghost predicate FromSomeAnchor(g: GraphSnapshot, v: nat) {
    exists a :: a in g.anchors && Reaches(Successors(g), a, v)
  }

  ghost predicate ToSomeAnchor(g: GraphSnapshot, v: nat) {
    exists a :: a in g.anchors && Reaches(Successors(g), v, a)
  }

  /** `DistanceCache::recompute`: both marks are exact. */
  method Recompute(g: GraphSnapshot) returns (fromAnchor: array<bool>, toAnchor: array<bool>)
    requires ValidSnapshot(g)
    ensures fromAnchor.Length == toAnchor.Length == |g.tokens|
    ensures forall v :: 0 <= v < |g.tokens| ==> (fromAnchor[v] <==> FromSomeAnchor(g, v))
    ensures forall v :: 0 <= v < |g.tokens| ==> (toAnchor[v] <==> ToSomeAnchor(g, v))
  {
    hide Reaches, IndexesAgree, Closed, Successors, Predecessors;
    NeighboursClosed(g);
    fromAnchor := MarkReachable(Successors(g), g.anchors);
    toAnchor := MarkReachable(Predecessors(g), g.anchors);
    forall v | 0 <= v < |g.tokens| ensures ReachedFrom(Predecessors(g), g.anchors, v) <==> ToSomeAnchor(g, v) {
      forall a ensures Reaches(Predecessors(g), a, v) <==> Reaches(Successors(g), v, a) {
        BackwardIsForward(g, a, v);
      }
    }
  }
}
