/** The token graph and its edge indexes (`src/graph/model.rs`).

    Hash maps are `map`s; the pools are handed over in the order in which the hash map
    happens to yield them. Rates, weights and capacities are given numbers. */
module GraphModel {
  import opened Common

  /** Addresses are 160 bits wide. */
  const ADDRESS_LIMIT: nat := 0x1_0000000000_0000000000_0000000000_0000000000

  type Address = a: nat | a < ADDRESS_LIMIT

  datatype Token = Token(address: Address, isCycleAnchor: bool)

  datatype Rate = Rate(spotRate: nat, weight: int, capacity: nat)

  /** Constant-product, Aerodrome, V3 and LB pools are two-token pools, Curve and Balancer pools are not. */
  datatype PoolKind = TwoToken | NToken

  datatype Pool = Pool(poolId: Address, tokens: seq<Address>, kind: PoolKind, healthy: bool,
                       confidence: nat, rate: (nat, nat) -> Rate)

  datatype Edge = Edge(from: nat, to: nat, poolId: Address, rate: Rate, healthy: bool, confidence: nat)

  datatype EdgeRef = EdgeRef(from: nat, idx: nat)

  datatype Indexes = Indexes(adjacency: seq<seq<Edge>>, reverseAdj: seq<seq<EdgeRef>>,
                             poolToEdges: map<Address, seq<EdgeRef>>, pairToEdges: map<(nat, nat), seq<EdgeRef>>)

  datatype GraphSnapshot = GraphSnapshot(tokens: seq<Token>, tokenToIndex: map<Address, nat>,
                                         anchors: seq<nat>, ix: Indexes)

  // ----- looking edges up

  predicate Resolves(adjacency: seq<seq<Edge>>, ref: EdgeRef) {
    ref.from < |adjacency| && ref.idx < |adjacency[ref.from]|
  }

  /** `edge` */
  function EdgeOf(adjacency: seq<seq<Edge>>, ref: EdgeRef): Option<Edge> {
    if Resolves(adjacency, ref) then Some(adjacency[ref.from][ref.idx]) else None
  }

  // ----- what it means for an index to be exact

  datatype IndexKey = ByTarget(to: nat) | ByPool(pool: Address) | ByPair(source: nat, target: nat)

  predicate Matches(key: IndexKey, edge: Edge) {
    match key
    case ByTarget(to) => edge.to == to
    case ByPool(pool) => edge.poolId == pool
    case ByPair(source, target) => edge.from == source && edge.to == target
  }

  /** `view` holds a reference to every matching adjacency edge exactly once, and nothing else. */
  ghost predicate ExactView(adjacency: seq<seq<Edge>>, view: seq<EdgeRef>, key: IndexKey) {
    && NoDup(view)
    && forall ref :: ref in view <==> Resolves(adjacency, ref) && Matches(key, adjacency[ref.from][ref.idx])
  }

  /** Every edge sits under its own source and points to a known token. */
  ghost predicate WellPlaced(adjacency: seq<seq<Edge>>) {
    forall u, k :: 0 <= u < |adjacency| && 0 <= k < |adjacency[u]| ==>
      adjacency[u][k].from == u && adjacency[u][k].to < |adjacency|
  }

  /** The three indexes agree with the adjacency lists. */
  ghost predicate IndexesAgree(ix: Indexes) {
    && |ix.reverseAdj| == |ix.adjacency|
    && WellPlaced(ix.adjacency)
    && (forall v :: 0 <= v < |ix.adjacency| ==> ExactView(ix.adjacency, ix.reverseAdj[v], ByTarget(v)))
    && (forall p :: ExactView(ix.adjacency, Entry(ix.poolToEdges, p), ByPool(p)))
    && (forall u, v :: ExactView(ix.adjacency, Entry(ix.pairToEdges, (u, v)), ByPair(u, v)))
  }

  // ----- adding one edge

  function PushEdge(adjacency: seq<seq<Edge>>, edge: Edge): seq<seq<Edge>>
    requires edge.from < |adjacency|
  {
    adjacency[edge.from := adjacency[edge.from] + [edge]]
  }

  function NewRef(adjacency: seq<seq<Edge>>, edge: Edge): EdgeRef
    requires edge.from < |adjacency|
  {
    EdgeRef(edge.from, |adjacency[edge.from]|)
  }

  function AddEdge(ix: Indexes, edge: Edge): Indexes
    requires edge.from < |ix.adjacency| && edge.to < |ix.reverseAdj|
  {
    var ref := NewRef(ix.adjacency, edge);
    var pair := (edge.from, edge.to);
    Indexes(PushEdge(ix.adjacency, edge),
            ix.reverseAdj[edge.to := ix.reverseAdj[edge.to] + [ref]],
            ix.poolToEdges[edge.poolId := Entry(ix.poolToEdges, edge.poolId) + [ref]],
            ix.pairToEdges[pair := Entry(ix.pairToEdges, pair) + [ref]])
  }

  lemma PushedEdges(adjacency: seq<seq<Edge>>, edge: Edge)
    requires edge.from < |adjacency|
    ensures var pushed, ref := PushEdge(adjacency, edge), NewRef(adjacency, edge);
      && !Resolves(adjacency, ref) && Resolves(pushed, ref) && pushed[ref.from][ref.idx] == edge
      && (forall r :: Resolves(pushed, r) <==> Resolves(adjacency, r) || r == ref)
      && (forall r :: Resolves(adjacency, r) ==> pushed[r.from][r.idx] == adjacency[r.from][r.idx])
  {}

  /** A view stays exact when the new reference is appended exactly if the edge matches. */
  lemma ViewAfterPush(adjacency: seq<seq<Edge>>, edge: Edge, view: seq<EdgeRef>, key: IndexKey)
    requires edge.from < |adjacency| && ExactView(adjacency, view, key)
    ensures ExactView(PushEdge(adjacency, edge),
                      if Matches(key, edge) then view + [NewRef(adjacency, edge)] else view, key)
  {
    PushedEdges(adjacency, edge);
    hide PushEdge, Matches;
    var pushed, ref := PushEdge(adjacency, edge), NewRef(adjacency, edge);
    assert ref !in view;
    var view' := if Matches(key, edge) then view + [ref] else view;
    forall r ensures r in view' <==> Resolves(pushed, r) && Matches(key, pushed[r.from][r.idx]) {
      assert r in view' <==> r in view || (Matches(key, edge) && r == ref);
    }
  }

  lemma AddEdgeKeepsAgreement(ix: Indexes, edge: Edge)
    requires IndexesAgree(ix) && edge.from < |ix.adjacency| && edge.to < |ix.adjacency|
    ensures IndexesAgree(AddEdge(ix, edge))
  {
    hide ExactView;
    var after := AddEdge(ix, edge);
    forall v | 0 <= v < |ix.adjacency| ensures ExactView(after.adjacency, after.reverseAdj[v], ByTarget(v)) {
      ViewAfterPush(ix.adjacency, edge, ix.reverseAdj[v], ByTarget(v));
    }
    forall p ensures ExactView(after.adjacency, Entry(after.poolToEdges, p), ByPool(p)) {
      ViewAfterPush(ix.adjacency, edge, Entry(ix.poolToEdges, p), ByPool(p));
    }
    forall u, v ensures ExactView(after.adjacency, Entry(after.pairToEdges, (u, v)), ByPair(u, v)) {
      ViewAfterPush(ix.adjacency, edge, Entry(ix.pairToEdges, (u, v)), ByPair(u, v));
    }
  }

  // ----- the edges of one pool

  /** The index of an address; a repeated address keeps its last position. */
  function TokenIndex(tokens: seq<Token>): (m: map<Address, nat>)
    ensures forall a :: a in m ==> m[a] < |tokens| && tokens[m[a]].address == a
    ensures forall i :: 0 <= i < |tokens| ==> tokens[i].address in m && i <= m[tokens[i].address]
  {
    if tokens == [] then map[]
    else TokenIndex(tokens[..|tokens| - 1])[tokens[|tokens| - 1].address := |tokens| - 1]
  }

  function EdgeBetween(pool: Pool, index: map<Address, nat>, i: nat, j: nat): Option<Edge>
    requires i < |pool.tokens| && j < |pool.tokens|
  {
    if i != j && pool.tokens[i] in index && pool.tokens[j] in index then
      Some(Edge(index[pool.tokens[i]], index[pool.tokens[j]], pool.poolId, pool.rate(i, j), pool.healthy, pool.confidence))
    else None
  }

  /** `build_two_token_edges` */
  function TwoTokenEdges(pool: Pool, index: map<Address, nat>): seq<Edge> {
    if |pool.tokens| != 2 || pool.tokens[0] !in index || pool.tokens[1] !in index then []
    else [EdgeBetween(pool, index, 0, 1).value, EdgeBetween(pool, index, 1, 0).value]
  }

  /** Row `i` of the token pairs, up to column `n`. */
  function EdgeRow(pool: Pool, index: map<Address, nat>, i: nat, n: nat): seq<Edge>
    requires i < |pool.tokens| && n <= |pool.tokens|
  {
    if n == 0 then []
    else
      var edge := EdgeBetween(pool, index, i, n - 1);
      EdgeRow(pool, index, i, n - 1) + (if edge.Some? then [edge.value] else [])
  }

  function EdgeRows(pool: Pool, index: map<Address, nat>, m: nat): seq<Edge>
    requires m <= |pool.tokens|
  {
    if m == 0 then [] else EdgeRows(pool, index, m - 1) + EdgeRow(pool, index, m - 1, |pool.tokens|)
  }

  /** `build_n_token_edges` */
  method NTokenEdges(pool: Pool, index: map<Address, nat>) returns (edges: seq<Edge>)
    ensures edges == EdgeRows(pool, index, |pool.tokens|)
  {
    edges := [];
    for i := 0 to |pool.tokens|
      invariant edges == EdgeRows(pool, index, i)
    {
      for j := 0 to |pool.tokens|
        invariant edges == EdgeRows(pool, index, i) + EdgeRow(pool, index, i, j)
      {
        var edge := EdgeBetween(pool, index, i, j);
        if edge.Some? {
          edges := edges + [edge.value];
        }
      }
    }
  }

  lemma {:induction false} RowIsPairs(pool: Pool, index: map<Address, nat>, i: nat, n: nat, edge: Edge)
    requires i < |pool.tokens| && n <= |pool.tokens|
    ensures edge in EdgeRow(pool, index, i, n) <==> exists j: nat :: j < n && EdgeBetween(pool, index, i, j) == Some(edge)
  {
    if n > 0 {
      hide EdgeBetween;
      RowIsPairs(pool, index, i, n - 1, edge);
    }
  }

  /** An N-token pool has an edge for every ordered pair of distinct known tokens, and no other. */
  lemma {:induction false} RowsAreAllPairs(pool: Pool, index: map<Address, nat>, m: nat, edge: Edge)
    requires m <= |pool.tokens|
    ensures edge in EdgeRows(pool, index, m) <==>
      exists i: nat, j: nat :: i < m && j < |pool.tokens| && EdgeBetween(pool, index, i, j) == Some(edge)
  {
    if m > 0 {
      hide EdgeBetween;
      RowsAreAllPairs(pool, index, m - 1, edge);
      RowIsPairs(pool, index, m - 1, |pool.tokens|, edge);
    }
  }

  function EdgesForPool(pool: Pool, index: map<Address, nat>): seq<Edge> {
    match pool.kind
    case TwoToken => TwoTokenEdges(pool, index)
    case NToken => EdgeRows(pool, index, |pool.tokens|)
  }

  /** What an edge of a pool is: it leads between two known tokens at different places of the pool, either
      way, at the pool's rate for that direction. A two-token pool has exactly two tokens. */
  ghost predicate IsEdgeOf(pool: Pool, index: map<Address, nat>, edge: Edge) {
    && (pool.kind.TwoToken? ==> |pool.tokens| == 2)
    && edge.poolId == pool.poolId && edge.healthy == pool.healthy && edge.confidence == pool.confidence
    && exists i: nat, j: nat :: i < |pool.tokens| && j < |pool.tokens| && i != j && Leads(pool, index, edge, i, j)
  }

  ghost predicate Leads(pool: Pool, index: map<Address, nat>, edge: Edge, i: nat, j: nat)
    requires i < |pool.tokens| && j < |pool.tokens|
  {
    && pool.tokens[i] in index && edge.from == index[pool.tokens[i]]
    && pool.tokens[j] in index && edge.to == index[pool.tokens[j]]
    && edge.rate == pool.rate(i, j)
  }

  lemma BetweenLeads(pool: Pool, index: map<Address, nat>, edge: Edge, i: nat, j: nat)
    requires i < |pool.tokens| && j < |pool.tokens|
    ensures EdgeBetween(pool, index, i, j) == Some(edge) <==>
      && i != j && Leads(pool, index, edge, i, j)
      && edge.poolId == pool.poolId && edge.healthy == pool.healthy && edge.confidence == pool.confidence
  {}

  /** A pool gives exactly its edges, a two-token pool both directions. */
  lemma PoolGivesItsEdges(pool: Pool, index: map<Address, nat>, edge: Edge)
    ensures edge in EdgesForPool(pool, index) <==> IsEdgeOf(pool, index, edge)
  {
    forall i: nat, j: nat | i < |pool.tokens| && j < |pool.tokens|
      ensures EdgeBetween(pool, index, i, j) == Some(edge) <==>
        && i != j && Leads(pool, index, edge, i, j)
        && edge.poolId == pool.poolId && edge.healthy == pool.healthy && edge.confidence == pool.confidence
    {
      BetweenLeads(pool, index, edge, i, j);
    }
    if pool.kind.NToken? {
      RowsAreAllPairs(pool, index, |pool.tokens|, edge);
      hide EdgeBetween, EdgeRows, Leads;
    } else if |pool.tokens| == 2 {
      hide Leads;
    }
  }

  lemma {:induction false} AllEdgesMembers(pools: seq<Pool>, index: map<Address, nat>, edge: Edge)
    ensures edge in AllEdges(pools, index) <==> exists pool :: pool in pools && IsEdgeOf(pool, index, edge)
  {
    if pools != [] {
      hide EdgesForPool, IsEdgeOf;
      var init, last := pools[..|pools| - 1], pools[|pools| - 1];
      assert pools == init + [last];
      AllEdgesMembers(init, index, edge);
      PoolGivesItsEdges(last, index, edge);
      assert edge in AllEdges(pools, index) <==> edge in AllEdges(init, index) || edge in EdgesForPool(last, index);
    }
  }

  function AllEdges(pools: seq<Pool>, index: map<Address, nat>): seq<Edge> {
    if pools == [] then []
    else AllEdges(pools[..|pools| - 1], index) + EdgesForPool(pools[|pools| - 1], index)
  }

  ghost predicate EndpointsBelow(edges: seq<Edge>, n: nat) {
    forall k :: 0 <= k < |edges| ==> edges[k].from < n && edges[k].to < n
  }

  lemma {:induction false} RowEndpoints(pool: Pool, index: map<Address, nat>, i: nat, n: nat, bound: nat)
    requires i < |pool.tokens| && n <= |pool.tokens|
    requires forall a :: a in index ==> index[a] < bound
    ensures EndpointsBelow(EdgeRow(pool, index, i, n), bound)
  {
    if n > 0 {
      RowEndpoints(pool, index, i, n - 1, bound);
    }
  }

  lemma {:induction false} RowsEndpoints(pool: Pool, index: map<Address, nat>, m: nat, bound: nat)
    requires m <= |pool.tokens|
    requires forall a :: a in index ==> index[a] < bound
    ensures EndpointsBelow(EdgeRows(pool, index, m), bound)
  {
    if m > 0 {
      RowsEndpoints(pool, index, m - 1, bound);
      RowEndpoints(pool, index, m - 1, |pool.tokens|, bound);
    }
  }

  lemma PoolEndpoints(pool: Pool, index: map<Address, nat>, bound: nat)
    requires forall a :: a in index ==> index[a] < bound
    ensures EndpointsBelow(EdgesForPool(pool, index), bound)
  {
    RowsEndpoints(pool, index, |pool.tokens|, bound);
  }

  // ----- building the snapshot

  /** The edges that start at `u`, in order. */
  function EdgesFrom(edges: seq<Edge>, u: nat): seq<Edge> {
    if edges == [] then []
    else
      var last := edges[|edges| - 1];
      EdgesFrom(edges[..|edges| - 1], u) + (if last.from == u then [last] else [])
  }

  /** The adjacency lists hold exactly `edges`, each under its source, in order. */
  ghost predicate Holds(adjacency: seq<seq<Edge>>, edges: seq<Edge>) {
    forall u :: 0 <= u < |adjacency| ==> adjacency[u] == EdgesFrom(edges, u)
  }

  lemma HoldsPush(adjacency: seq<seq<Edge>>, edges: seq<Edge>, edge: Edge)
    requires Holds(adjacency, edges) && edge.from < |adjacency|
    ensures Holds(PushEdge(adjacency, edge), edges + [edge])
  {
    assert (edges + [edge])[..|edges|] == edges;
  }

  ghost predicate Contains(adjacency: seq<seq<Edge>>, edge: Edge) {
    edge.from < |adjacency| && edge in adjacency[edge.from]
  }

  lemma {:induction false} EdgesFromMembers(edges: seq<Edge>, u: nat, edge: Edge)
    ensures edge in EdgesFrom(edges, u) <==> edge in edges && edge.from == u
    ensures multiset(EdgesFrom(edges, u))[edge] == if edge.from == u then multiset(edges)[edge] else 0
  {
    if edges != [] {
      var init, last := edges[..|edges| - 1], edges[|edges| - 1];
      assert edges == init + [last];
      EdgesFromMembers(init, u, edge);
    }
  }

  /** The snapshot contains an edge if and only if it is an edge of one of the pools. */
  lemma HoldsPoolEdges(adjacency: seq<seq<Edge>>, pools: seq<Pool>, index: map<Address, nat>, edge: Edge)
    requires Holds(adjacency, AllEdges(pools, index))
    requires forall a :: a in index ==> index[a] < |adjacency|
    ensures Contains(adjacency, edge) <==> exists pool :: pool in pools && IsEdgeOf(pool, index, edge)
  {
    AllEdgesMembers(pools, index, edge);
    EdgesFromMembers(AllEdges(pools, index), edge.from, edge);
    hide EdgesFrom, AllEdges;
    if pool :| pool in pools && IsEdgeOf(pool, index, edge) {
      assert edge.from < |adjacency|;
    }
  }

  function AnchorIndices(tokens: seq<Token>): (anchors: seq<nat>)
    ensures forall i: nat :: i in anchors <==> i < |tokens| && tokens[i].isCycleAnchor
  {
    if tokens == [] then []
    else
      var n := |tokens| - 1;
      AnchorIndices(tokens[..n]) + (if tokens[n].isCycleAnchor then [n] else [])
  }

  ghost predicate ValidSnapshot(g: GraphSnapshot) {
    && |g.ix.adjacency| == |g.tokens|
    && IndexesAgree(g.ix)
    && forall i: nat :: i in g.anchors <==> i < |g.tokens| && g.tokens[i].isCycleAnchor
  }

  /** `GraphSnapshot::build` */
  method Build(tokens: seq<Token>, pools: seq<Pool>) returns (g: GraphSnapshot)
    ensures ValidSnapshot(g)
    ensures g.tokens == tokens && g.tokenToIndex == TokenIndex(tokens)
    ensures Holds(g.ix.adjacency, AllEdges(pools, TokenIndex(tokens)))
    ensures forall edge :: Contains(g.ix.adjacency, edge) <==>
      exists pool :: pool in pools && IsEdgeOf(pool, TokenIndex(tokens), edge)
  {
    hide IndexesAgree, Holds, EndpointsBelow, EdgesForPool, Contains, IsEdgeOf;
    var index := TokenIndex(tokens);
    var n := |tokens|;
    var adjacency: seq<seq<Edge>> := seq(n, _ => []);
    var reverseAdj: seq<seq<EdgeRef>> := seq(n, _ => []);
    var poolToEdges: map<Address, seq<EdgeRef>> := map[];
    var pairToEdges: map<(nat, nat), seq<EdgeRef>> := map[];
    EmptyIndexes(n);

    for p := 0 to |pools|
      invariant |adjacency| == |reverseAdj| == n
      invariant IndexesAgree(Indexes(adjacency, reverseAdj, poolToEdges, pairToEdges))
      invariant Holds(adjacency, AllEdges(pools[..p], index))
    {
      var newEdges := BuildEdgesForPool(pools[p], index);
      PoolEndpoints(pools[p], index, n);
      assert pools[..p + 1][..p] == pools[..p];
      ghost var done := AllEdges(pools[..p], index);
      assert done + newEdges[..0] == done;
      for e := 0 to |newEdges|
        invariant |adjacency| == |reverseAdj| == n
        invariant IndexesAgree(Indexes(adjacency, reverseAdj, poolToEdges, pairToEdges))
        invariant Holds(adjacency, done + newEdges[..e])
      {
        var edge := newEdges[e];
        EndpointOf(newEdges, e, n);
        AddEdgeKeepsAgreement(Indexes(adjacency, reverseAdj, poolToEdges, pairToEdges), edge);
        HoldsPush(adjacency, done + newEdges[..e], edge);
        assert done + newEdges[..e + 1] == done + newEdges[..e] + [edge];

        adjacency := adjacency[edge.from := adjacency[edge.from] + [edge]];
        var ref := EdgeRef(edge.from, |adjacency[edge.from]| - 1);
        reverseAdj := reverseAdj[edge.to := reverseAdj[edge.to] + [ref]];
        poolToEdges := poolToEdges[edge.poolId := Entry(poolToEdges, edge.poolId) + [ref]];
        pairToEdges := pairToEdges[(edge.from, edge.to) := Entry(pairToEdges, (edge.from, edge.to)) + [ref]];
      }
      assert newEdges[..|newEdges|] == newEdges;
    }
    assert pools[..|pools|] == pools;
    g := GraphSnapshot(tokens, index, AnchorIndices(tokens), Indexes(adjacency, reverseAdj, poolToEdges, pairToEdges));
    HoldsExactly(adjacency, pools, index);
  }

  lemma HoldsExactly(adjacency: seq<seq<Edge>>, pools: seq<Pool>, index: map<Address, nat>)
    requires Holds(adjacency, AllEdges(pools, index))
    requires forall a :: a in index ==> index[a] < |adjacency|
    ensures forall edge :: Contains(adjacency, edge) <==> exists pool :: pool in pools && IsEdgeOf(pool, index, edge)
  {
    forall edge ensures Contains(adjacency, edge) <==> exists pool :: pool in pools && IsEdgeOf(pool, index, edge) {
      HoldsPoolEdges(adjacency, pools, index, edge);
    }
  }

  method BuildEdgesForPool(pool: Pool, index: map<Address, nat>) returns (edges: seq<Edge>)
    ensures edges == EdgesForPool(pool, index)
  {
    match pool.kind {
      case TwoToken => edges := TwoTokenEdges(pool, index);
      case NToken => edges := NTokenEdges(pool, index);
    }
  }

  lemma EndpointOf(edges: seq<Edge>, e: nat, n: nat)
    requires EndpointsBelow(edges, n) && e < |edges|
    ensures edges[e].from < n && edges[e].to < n
  {}

  lemma EmptyIndexes(n: nat)
    ensures IndexesAgree(Indexes(seq(n, _ => []), seq(n, _ => []), map[], map[]))
    ensures Holds(seq(n, _ => []), [])
  {}
}
