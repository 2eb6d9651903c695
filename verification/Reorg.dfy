/** The reorg detector (`src/reorg/mod.rs`): a bounded canonical chain with two indexes.

    Locks are left out; `find_common_ancestor` reads the maps its caller holds. */
module Reorg {
  import opened Common

  type Hash = nat

  const MAX_BLOCK_HISTORY: nat := 128

  datatype Block = Block(number: nat, hash: Hash, parent: Hash, finality: nat)

  datatype Event = Detected(ancestor: nat, newBlock: nat, depth: nat) | Rollback(fromBlock: nat, toBlock: nat)

  /** `Failed` is the error of an ancestor that is not in the history. */
  datatype Reply = Failed | NoEvent | Happened(event: Event)

  datatype State = State(chain: seq<Block>, byHash: map<Hash, nat>, byNumber: map<nat, Block>)

  const EMPTY: State := State([], map[], map[])

  // ----- one step of each handler, as a function of the state

  function Tip(s: State): Block
    requires s.chain != []
  {
    s.chain[|s.chain| - 1]
  }

  function Push(s: State, b: Block): State {
    State(s.chain + [b], s.byHash[b.hash := b.number], s.byNumber[b.number := b])
  }

  function Unindex(s: State, b: Block, chain: seq<Block>): State {
    State(chain, s.byHash - {b.hash}, s.byNumber - {b.number})
  }

  function PopBack(s: State): State
    requires s.chain != []
  {
    Unindex(s, Tip(s), s.chain[..|s.chain| - 1])
  }

  function PopFront(s: State): State
    requires s.chain != []
  {
    Unindex(s, s.chain[0], s.chain[1..])
  }

  function Prune(s: State): State
    decreases |s.chain|
  {
    if |s.chain| > MAX_BLOCK_HISTORY then Prune(PopFront(s)) else s
  }

  function Append(s: State, b: Block): State {
    Prune(Push(s, b))
  }

  /** Drop blocks from the back until the one with this hash is the tip. */
  function RollbackToHash(s: State, hash: Hash): State
    decreases |s.chain|
  {
    if s.chain == [] || Tip(s).hash == hash then s else RollbackToHash(PopBack(s), hash)
  }

  /** Drop blocks from the back while they are above this number. */
  function RollbackToNumber(s: State, number: nat): State
    decreases |s.chain|
  {
    if s.chain == [] || Tip(s).number <= number then s else RollbackToNumber(PopBack(s), number)
  }

  function FindCommonAncestor(s: State, hash: Hash): Option<Block> {
    if hash in s.byHash && s.byHash[hash] in s.byNumber then Some(s.byNumber[s.byHash[hash]]) else None
  }

  function ParentMismatch(s: State, b: Block): (State, Reply)
    requires s.chain != []
  {
    match FindCommonAncestor(s, b.parent)
    case None => (s, Failed)
    case Some(ancestor) =>
      (Append(RollbackToHash(s, ancestor.hash), b),
       Happened(Detected(ancestor.number, b.number, SatSub(Tip(s).number, ancestor.number))))
  }

  function Update(s: State, b: Block): (State, Reply) {
    if s.chain == [] then (Append(s, b), NoEvent)
    else
      var tip := Tip(s);
      if b.number == tip.number then
        if b.hash != tip.hash then (Push(PopBack(s), b), Happened(Rollback(tip.number, tip.number)))
        else (s, NoEvent)
      else if b.number == tip.number + 1 then
        if b.parent != tip.hash then ParentMismatch(s, b) else (Append(s, b), NoEvent)
      else if b.number > tip.number then (Append(s, b), NoEvent)
      else if b.number in s.byNumber && s.byNumber[b.number].hash != b.hash then ParentMismatch(s, b)
      else (s, NoEvent)
  }

  // ----- the detector itself

  class ReorgDetector {
    var chain: seq<Block>
    var byHash: map<Hash, nat>
    var byNumber: map<nat, Block>

    ghost function Now(): State
      reads this
    {
      State(chain, byHash, byNumber)
    }

    constructor ()
      ensures Now() == EMPTY
    {
      chain, byHash, byNumber := [], map[], map[];
    }

    method AppendBlock(b: Block)
      modifies this
      ensures Now() == Append(old(Now()), b)
    {
      chain := chain + [b];
      byHash := byHash[b.hash := b.number];
      byNumber := byNumber[b.number := b];
      while |chain| > MAX_BLOCK_HISTORY
        invariant Prune(Now()) == Append(old(Now()), b)
        decreases |chain|
      {
        var first := chain[0];
        chain := chain[1..];
        byHash := byHash - {first.hash};
        byNumber := byNumber - {first.number};
      }
    }

    method HandleReorgAtSameHeight(b: Block) returns (r: Reply)
      requires chain != []
      modifies this
      ensures Now() == Push(PopBack(old(Now())), b)
      ensures r == Happened(Rollback(Tip(old(Now())).number, Tip(old(Now())).number))
    {
      var oldTip := chain[|chain| - 1];
      chain := chain[..|chain| - 1];
      byHash := byHash - {oldTip.hash};
      byNumber := byNumber - {oldTip.number};
      chain := chain + [b];
      byHash := byHash[b.hash := b.number];
      byNumber := byNumber[b.number := b];
      r := Happened(Rollback(oldTip.number, oldTip.number));
    }

    method HandleParentMismatch(b: Block) returns (r: Reply)
      requires chain != []
      modifies this
      ensures (Now(), r) == ParentMismatch(old(Now()), b)
    {
      if b.parent !in byHash || byHash[b.parent] !in byNumber {
        return Failed;
      }
      var ancestor := byNumber[byHash[b.parent]];
      var fromBlock := chain[|chain| - 1].number;
      while chain != [] && chain[|chain| - 1].hash != ancestor.hash
        invariant RollbackToHash(Now(), ancestor.hash) == RollbackToHash(old(Now()), ancestor.hash)
        decreases |chain|
      {
        var last := chain[|chain| - 1];
        chain := chain[..|chain| - 1];
        byHash := byHash - {last.hash};
        byNumber := byNumber - {last.number};
      }
      AppendBlock(b);
      r := Happened(Detected(ancestor.number, b.number, SatSub(fromBlock, ancestor.number)));
    }

    /** Both branches of the source append the block; only the log line differs. */
    method HandleReorgWithGap(b: Block) returns (r: Reply)
      modifies this
      ensures Now() == Append(old(Now()), b) && r == NoEvent
    {
      if b.parent in byHash {
        AppendBlock(b);
        return NoEvent;
      }
      AppendBlock(b);
      r := NoEvent;
    }

    method HandleReorgWithOlderBlock(b: Block) returns (r: Reply)
      requires chain != []
      modifies this
      ensures (Now(), r) == if b.number in old(byNumber) && old(byNumber)[b.number].hash != b.hash
                            then ParentMismatch(old(Now()), b) else (old(Now()), NoEvent)
    {
      if b.number in byNumber {
        if byNumber[b.number].hash != b.hash {
          r := HandleParentMismatch(b);
          return;
        }
        return NoEvent;
      }
      return NoEvent;
    }

    method UpdateChain(b: Block) returns (r: Reply)
      modifies this
      ensures (Now(), r) == Update(old(Now()), b)
    {
      if chain == [] {
        AppendBlock(b);
        return NoEvent;
      }
      var tip := chain[|chain| - 1];
      if b.number == tip.number {
        if b.hash != tip.hash {
          r := HandleReorgAtSameHeight(b);
        } else {
          r := NoEvent;
        }
      } else if b.number == tip.number + 1 {
        if b.parent != tip.hash {
          r := HandleParentMismatch(b);
        } else {
          AppendBlock(b);
          r := NoEvent;
        }
      } else if b.number > tip.number {
        r := HandleReorgWithGap(b);
      } else {
        r := HandleReorgWithOlderBlock(b);
      }
    }

    method RollbackToBlock(number: nat)
      modifies this
      ensures Now() == RollbackToNumber(old(Now()), number)
    {
      while chain != [] && chain[|chain| - 1].number > number
        invariant RollbackToNumber(Now(), number) == RollbackToNumber(old(Now()), number)
        decreases |chain|
      {
        var last := chain[|chain| - 1];
        chain := chain[..|chain| - 1];
        byHash := byHash - {last.hash};
        byNumber := byNumber - {last.number};
      }
    }
  }

  // ----- the world the blocks come from

  /** The blocks that exist. A hash fixes its block's number and parent; the parent itself need
      not exist, as for a genesis block. */
  datatype World = World(known: Hash -> bool, numberOf: Hash -> nat, parentOf: Hash -> Hash)

  /** An existing parent is numbered one less. */
  ghost predicate Lawful(w: World) {
    forall h: Hash :: w.known(h) && w.known(w.parentOf(h)) ==> w.numberOf(w.parentOf(h)) + 1 == w.numberOf(h)
  }

  ghost predicate FromWorld(w: World, b: Block) {
    w.known(b.hash) && b.number == w.numberOf(b.hash) && b.parent == w.parentOf(b.hash)
  }

  // ----- the invariant

  ghost predicate Increasing(chain: seq<Block>) {
    forall i, j :: 0 <= i < j < |chain| ==> chain[i].number < chain[j].number
  }

  function BlocksOf(chain: seq<Block>): set<Block> {
    set b | b in chain
  }

  /** Both indexes hold exactly these blocks. */
  ghost predicate IndexExactly(blocks: set<Block>, byHash: map<Hash, nat>, byNumber: map<nat, Block>) {
    && (forall b :: b in blocks ==>
          && b.hash in byHash && byHash[b.hash] == b.number
          && b.number in byNumber && byNumber[b.number] == b)
    && (forall n :: n in byNumber ==> byNumber[n] in blocks && byNumber[n].number == n)
    && (forall h :: h in byHash ==> byHash[h] in byNumber && byNumber[byHash[h]].hash == h)
  }

  ghost predicate AllFromWorld(w: World, chain: seq<Block>) {
    forall i :: 0 <= i < |chain| ==> FromWorld(w, chain[i])
  }

  ghost predicate Consistent(w: World, s: State) {
    && Increasing(s.chain)
    && AllFromWorld(w, s.chain)
    && IndexExactly(BlocksOf(s.chain), s.byHash, s.byNumber)
  }

  ghost predicate Inv(w: World, s: State) {
    Consistent(w, s) && |s.chain| <= MAX_BLOCK_HISTORY
  }

  lemma IndexAdd(blocks: set<Block>, byHash: map<Hash, nat>, byNumber: map<nat, Block>, b: Block)
    requires IndexExactly(blocks, byHash, byNumber)
    requires b.hash !in byHash && b.number !in byNumber
    ensures IndexExactly(blocks + {b}, byHash[b.hash := b.number], byNumber[b.number := b])
  {}

  lemma IndexRemove(blocks: set<Block>, byHash: map<Hash, nat>, byNumber: map<nat, Block>, gone: Block)
    requires IndexExactly(blocks, byHash, byNumber) && gone in blocks
    ensures IndexExactly(blocks - {gone}, byHash - {gone.hash}, byNumber - {gone.number})
  {
    forall b | b in blocks - {gone} ensures b.hash != gone.hash && b.number != gone.number {
      assert byNumber[b.number] == b && byNumber[gone.number] == gone;
    }
  }

  /** A block above the tip is new to both indexes. */
  lemma AboveIsNew(w: World, s: State, b: Block)
    requires Consistent(w, s) && FromWorld(w, b)
    requires s.chain != [] ==> Tip(s).number < b.number
    ensures b.hash !in s.byHash && b.number !in s.byNumber
  {
    forall c | c in BlocksOf(s.chain) ensures c.number < b.number && c.number == w.numberOf(c.hash) {
      var i :| 0 <= i < |s.chain| && s.chain[i] == c;
      assert FromWorld(w, s.chain[i]);
    }
    forall h | h in s.byHash ensures h != b.hash {
      assert s.byNumber[s.byHash[h]] in BlocksOf(s.chain);
    }
  }

  lemma BlocksPush(chain: seq<Block>, b: Block)
    ensures BlocksOf(chain + [b]) == BlocksOf(chain) + {b}
  {}

  lemma ChainPush(w: World, chain: seq<Block>, b: Block)
    requires Increasing(chain) && AllFromWorld(w, chain) && FromWorld(w, b)
    requires chain != [] ==> chain[|chain| - 1].number < b.number
    ensures Increasing(chain + [b]) && AllFromWorld(w, chain + [b])
  {
    hide FromWorld;
  }

  lemma PushKeeps(w: World, s: State, b: Block)
    requires Consistent(w, s) && FromWorld(w, b)
    requires s.chain != [] ==> Tip(s).number < b.number
    ensures Consistent(w, Push(s, b))
  {
    AboveIsNew(w, s, b);
    hide IndexExactly, FromWorld, BlocksOf, Increasing, AllFromWorld;
    IndexAdd(BlocksOf(s.chain), s.byHash, s.byNumber, b);
    BlocksPush(s.chain, b);
    ChainPush(w, s.chain, b);
  }

  lemma PopBackKeeps(w: World, s: State)
    requires Consistent(w, s) && s.chain != []
    ensures Consistent(w, PopBack(s))
  {
    hide IndexExactly, FromWorld;
    var n := |s.chain| - 1;
    IndexRemove(BlocksOf(s.chain), s.byHash, s.byNumber, s.chain[n]);
    assert s.chain == s.chain[..n] + [s.chain[n]];
    assert BlocksOf(s.chain[..n]) == BlocksOf(s.chain) - {s.chain[n]};
  }

  lemma PopFrontKeeps(w: World, s: State)
    requires Consistent(w, s) && s.chain != []
    ensures Consistent(w, PopFront(s))
  {
    hide IndexExactly, FromWorld;
    IndexRemove(BlocksOf(s.chain), s.byHash, s.byNumber, s.chain[0]);
    assert s.chain == [s.chain[0]] + s.chain[1..];
    assert BlocksOf(s.chain[1..]) == BlocksOf(s.chain) - {s.chain[0]};
  }

  lemma {:induction false} PruneKeeps(w: World, s: State)
    requires Consistent(w, s)
    ensures Inv(w, Prune(s))
    ensures |s.chain| <= MAX_BLOCK_HISTORY ==> Prune(s) == s
    ensures s.chain != [] ==> Prune(s).chain != [] && Tip(Prune(s)) == Tip(s)
    decreases |s.chain|
  {
    hide Consistent;
    if |s.chain| > MAX_BLOCK_HISTORY {
      PopFrontKeeps(w, s);
      PruneKeeps(w, PopFront(s));
    }
  }

  lemma AppendKeeps(w: World, s: State, b: Block)
    requires Consistent(w, s) && FromWorld(w, b)
    requires s.chain != [] ==> Tip(s).number < b.number
    ensures Inv(w, Append(s, b))
    ensures Append(s, b).chain != [] && Tip(Append(s, b)) == b
    ensures |s.chain| < MAX_BLOCK_HISTORY ==> Append(s, b) == Push(s, b)
  {
    hide Consistent;
    PushKeeps(w, s, b);
    PruneKeeps(w, Push(s, b));
  }

  /** Rolling back keeps the prefix that ends at the block with that hash. */
  lemma {:induction false} RollbackToHashIsPrefix(w: World, s: State, k: nat)
    requires Consistent(w, s) && k < |s.chain|
    ensures var r := RollbackToHash(s, s.chain[k].hash);
      Consistent(w, r) && r.chain == s.chain[..k + 1]
    decreases |s.chain|
  {
    hide IndexExactly, FromWorld;
    if Tip(s).hash == s.chain[k].hash {
      SameHashSamePlace(w, s, k, |s.chain| - 1);
    } else {
      var popped := PopBack(s);
      PopBackKeeps(w, s);
      assert popped.chain[k] == s.chain[k];
      RollbackToHashIsPrefix(w, popped, k);
      assert popped.chain[..k + 1] == s.chain[..k + 1];
    }
  }

  lemma SameHashSamePlace(w: World, s: State, i: nat, j: nat)
    requires Consistent(w, s) && i < |s.chain| && j < |s.chain| && s.chain[i].hash == s.chain[j].hash
    ensures i == j
  {
    assert FromWorld(w, s.chain[i]) && FromWorld(w, s.chain[j]);
    hide IndexExactly;
  }

  /** Rolling back to a number keeps exactly the blocks up to it. */
  lemma {:induction false} RollbackToNumberIsPrefix(w: World, s: State, number: nat) returns (k: nat)
    requires Consistent(w, s)
    ensures k <= |s.chain|
    ensures var r := RollbackToNumber(s, number);
      Consistent(w, r) && r.chain == s.chain[..k]
    ensures forall i :: 0 <= i < |s.chain| ==> (i < k <==> s.chain[i].number <= number)
    decreases |s.chain|
  {
    hide IndexExactly, FromWorld;
    if s.chain == [] || Tip(s).number <= number {
      k := |s.chain|;
    } else {
      PopBackKeeps(w, s);
      k := RollbackToNumberIsPrefix(w, PopBack(s), number);
      assert s.chain[..|s.chain| - 1][..k] == s.chain[..k];
      assert forall i :: 0 <= i < |s.chain| - 1 ==> s.chain[..|s.chain| - 1][i] == s.chain[i];
    }
  }

  /** The ancestor lookup finds exactly the chain block with that hash. */
  lemma AncestorIsInChain(w: World, s: State, hash: Hash)
    requires Consistent(w, s)
    ensures FindCommonAncestor(s, hash).Some? <==> exists k :: 0 <= k < |s.chain| && s.chain[k].hash == hash
    ensures forall k :: 0 <= k < |s.chain| && s.chain[k].hash == hash ==> FindCommonAncestor(s, hash) == Some(s.chain[k])
  {
    if FindCommonAncestor(s, hash).Some? {
      var b := FindCommonAncestor(s, hash).value;
      assert b in BlocksOf(s.chain);
    }
    forall k | 0 <= k < |s.chain| && s.chain[k].hash == hash ensures FindCommonAncestor(s, hash) == Some(s.chain[k]) {
      assert s.chain[k] in BlocksOf(s.chain);
    }
  }

  /** `Detected` leaves exactly the old prefix through the common ancestor plus the new block. */
  ghost predicate CutAt(s: State, b: Block, t: State, event: Event, k: nat) {
    && k < |s.chain| - 1
    && s.chain[k].hash == b.parent
    && t.chain == s.chain[..k + 1] + [b]
    && event == Detected(s.chain[k].number, b.number, SatSub(Tip(s).number, s.chain[k].number))
  }

  ghost predicate CutAndExtended(s: State, b: Block, t: State, event: Event) {
    exists k: nat :: CutAt(s, b, t, event, k)
  }

  lemma ParentMismatchCuts(w: World, s: State, b: Block)
    requires Lawful(w) && Inv(w, s) && FromWorld(w, b) && s.chain != []
    requires b.number <= Tip(s).number + 1 && b.parent != Tip(s).hash
    ensures var (t, r) := ParentMismatch(s, b);
      && Inv(w, t)
      && (r == Failed <==> forall k :: 0 <= k < |s.chain| ==> s.chain[k].hash != b.parent)
      && (r == Failed ==> t == s)
      && (r != Failed ==> r.Happened? && r.event.Detected? && CutAndExtended(s, b, t, r.event))
  {
    AncestorIsInChain(w, s, b.parent);
    if FindCommonAncestor(s, b.parent).Some? {
      var k: nat :| k < |s.chain| && s.chain[k].hash == b.parent;
      MismatchAt(w, s, b, k);
      var (t, r) := ParentMismatch(s, b);
      assert CutAt(s, b, t, r.event, k);
    }
  }

  lemma MismatchAt(w: World, s: State, b: Block, k: nat)
    requires Lawful(w) && Inv(w, s) && FromWorld(w, b)
    requires k < |s.chain| && s.chain[k].hash == b.parent && b.parent != Tip(s).hash
    ensures var t := Append(RollbackToHash(s, b.parent), b);
      Inv(w, t) && t.chain == s.chain[..k + 1] + [b] && k < |s.chain| - 1
  {
    assert Consistent(w, s) && |s.chain| <= MAX_BLOCK_HISTORY && k < |s.chain| - 1;
    hide *;
    ParentIsBelow(w, s, b, k);
    RollbackToHashIsPrefix(w, s, k);
    CutGrows(w, s, b, k, RollbackToHash(s, b.parent));
  }

  lemma CutGrows(w: World, s: State, b: Block, k: nat, cut: State)
    requires Consistent(w, cut) && FromWorld(w, b) && k < |s.chain| - 1 && |s.chain| <= MAX_BLOCK_HISTORY
    requires cut.chain == s.chain[..k + 1] && s.chain[k].number < b.number
    ensures Inv(w, Append(cut, b)) && Append(cut, b).chain == s.chain[..k + 1] + [b]
  {
    hide Consistent, FromWorld, Prune, Push, Append;
    assert cut.chain[k] == s.chain[k];
    AppendKeeps(w, cut, b);
    PushChain(cut, b);
  }

  lemma PushChain(s: State, b: Block)
    ensures Push(s, b).chain == s.chain + [b]
  {}

  lemma ParentIsBelow(w: World, s: State, b: Block, k: nat)
    requires Lawful(w) && Consistent(w, s) && FromWorld(w, b)
    requires k < |s.chain| && s.chain[k].hash == b.parent
    ensures s.chain[k].number == b.number - 1
  {
    assert FromWorld(w, s.chain[k]);
    assert w.known(b.hash);
  }

  /** One observation keeps the invariant; its reply says what happened to the chain. */
  lemma UpdateKeeps(w: World, s: State, b: Block)
    requires Lawful(w) && Inv(w, s) && FromWorld(w, b)
    ensures Inv(w, Update(s, b).0)
    ensures Update(s, b).1 == Failed ==> Update(s, b).0 == s
    ensures Update(s, b).1.Happened? && Update(s, b).1.event.Detected? ==>
      s.chain != [] && CutAndExtended(s, b, Update(s, b).0, Update(s, b).1.event)
    ensures Update(s, b).1.Happened? && Update(s, b).1.event.Rollback? ==>
      && s.chain != [] && b.number == Tip(s).number
      && Update(s, b).0.chain == s.chain[..|s.chain| - 1] + [b]
  {
    hide IndexExactly, CutAndExtended, ParentMismatch, Prune, FromWorld;
    if s.chain == [] {
      AppendKeeps(w, s, b);
    } else if b.number == Tip(s).number {
      if b.hash != Tip(s).hash {
        PopBackKeeps(w, s);
        PushKeeps(w, PopBack(s), b);
      }
    } else if b.number > Tip(s).number {
      if b.number == Tip(s).number + 1 && b.parent != Tip(s).hash {
        ParentMismatchCuts(w, s, b);
      } else {
        AppendKeeps(w, s, b);
      }
    } else {
      OlderParentIsBelow(w, s, b);
      ParentMismatchCuts(w, s, b);
    }
  }

  lemma OlderParentIsBelow(w: World, s: State, b: Block)
    requires Lawful(w) && Consistent(w, s) && FromWorld(w, b) && s.chain != [] && b.number <= Tip(s).number
    ensures b.parent != Tip(s).hash
  {
    assert FromWorld(w, s.chain[|s.chain| - 1]);
    assert w.known(b.hash);
  }

  /** The tip is the observed block unless it was refused, repeated, or older than the chain. */
  lemma TipFollows(w: World, s: State, b: Block)
    requires Lawful(w) && Inv(w, s) && FromWorld(w, b)
    requires Update(s, b).1 != Failed
    requires s.chain == [] || b.number >= Tip(s).number || Update(s, b).1 != NoEvent
    ensures Update(s, b).0.chain != []
    ensures Tip(Update(s, b).0).number == b.number && Tip(Update(s, b).0).hash == b.hash
  {
    UpdateKeeps(w, s, b);
    hide Consistent, Lawful, FromWorld, CutAndExtended, ParentMismatch, Append, Push, PopBack;
    if Update(s, b).1 != NoEvent {
      hide Update;
      if Update(s, b).1.event.Detected? {
        CutTip(s, b, Update(s, b).0, Update(s, b).1.event);
      }
    } else if s.chain == [] || b.number > Tip(s).number {
      AppendKeeps(w, s, b);
      NoEventAppends(s, b);
    }
  }

  lemma CutTip(s: State, b: Block, t: State, event: Event)
    requires CutAndExtended(s, b, t, event)
    ensures t.chain != [] && Tip(t) == b
  {}

  /** Above the tip a silent observation is an append. */
  lemma NoEventAppends(s: State, b: Block)
    requires Update(s, b).1 == NoEvent && (s.chain == [] || b.number > Tip(s).number)
    ensures Update(s, b).0 == Append(s, b)
  {
    hide Append, RollbackToHash;
  }

  // ----- what one observation answers, from the chain and the block alone

  /** The last blocks that history has room for. */
  function Latest(chain: seq<Block>): seq<Block> {
    if |chain| <= MAX_BLOCK_HISTORY then chain else chain[|chain| - MAX_BLOCK_HISTORY..]
  }

  lemma {:induction false} PruneLatest(s: State)
    ensures Prune(s).chain == Latest(s.chain)
    decreases |s.chain|
  {
    if |s.chain| > MAX_BLOCK_HISTORY {
      PruneLatest(PopFront(s));
    }
  }

  lemma AppendLatest(s: State, b: Block)
    ensures Append(s, b).chain == Latest(s.chain + [b])
  {
    PruneLatest(Push(s, b));
  }

  /** The chain holds another block with the number of `b`. */
  ghost predicate Conflicts(chain: seq<Block>, b: Block) {
    exists k :: 0 <= k < |chain| && chain[k].number == b.number && chain[k].hash != b.hash
  }

  lemma ConflictIsIndexed(w: World, s: State, b: Block)
    requires Consistent(w, s)
    ensures Conflicts(s.chain, b) <==> b.number in s.byNumber && s.byNumber[b.number].hash != b.hash
  {
    if b.number in s.byNumber {
      assert s.byNumber[b.number] in BlocksOf(s.chain);
    }
    forall k | 0 <= k < |s.chain| && s.chain[k].number == b.number
      ensures b.number in s.byNumber && s.byNumber[b.number] == s.chain[k]
    {
      assert s.chain[k] in BlocksOf(s.chain);
    }
  }

  /** Refused with nothing changed when no block of the chain is the parent; otherwise cut back to the
      parent and extended, with the depth reported. */
  ghost predicate CutOrRefused(s: State, b: Block, t: State, r: Reply)
    requires s.chain != []
  {
    if forall k :: 0 <= k < |s.chain| ==> s.chain[k].hash != b.parent then t == s && r == Failed
    else r.Happened? && CutAndExtended(s, b, t, r.event)
  }

  /** Every observation is answered by the case it falls into. */
  lemma ObservationAnswered(w: World, s: State, b: Block)
    requires Lawful(w) && Inv(w, s) && FromWorld(w, b)
    ensures s.chain == [] ==> Update(s, b).1 == NoEvent && Update(s, b).0.chain == [b]
    ensures s.chain != [] && b.number == Tip(s).number && b.hash == Tip(s).hash ==> Update(s, b) == (s, NoEvent)
    ensures s.chain != [] && b.number == Tip(s).number && b.hash != Tip(s).hash ==>
      Update(s, b).1 == Happened(Rollback(b.number, b.number)) && Update(s, b).0.chain == s.chain[..|s.chain| - 1] + [b]
    ensures s.chain != [] && b.number == Tip(s).number + 1 && b.parent == Tip(s).hash ==>
      Update(s, b).1 == NoEvent && Update(s, b).0.chain == Latest(s.chain + [b])
    ensures s.chain != [] && b.number == Tip(s).number + 1 && b.parent != Tip(s).hash ==>
      CutOrRefused(s, b, Update(s, b).0, Update(s, b).1)
    ensures s.chain != [] && b.number > Tip(s).number + 1 ==>
      Update(s, b).1 == NoEvent && Update(s, b).0.chain == Latest(s.chain + [b])
    ensures s.chain != [] && b.number < Tip(s).number && Conflicts(s.chain, b) ==>
      CutOrRefused(s, b, Update(s, b).0, Update(s, b).1)
    ensures s.chain != [] && b.number < Tip(s).number && !Conflicts(s.chain, b) ==> Update(s, b) == (s, NoEvent)
  {
    hide Inv, Lawful, FromWorld, Update, CutOrRefused, Conflicts, Latest;
    if s.chain != [] && b.number < Tip(s).number {
      AnsweredBelowTip(w, s, b);
    } else {
      AnsweredFromTip(w, s, b);
    }
  }

  lemma AnsweredFromTip(w: World, s: State, b: Block)
    requires Lawful(w) && Inv(w, s) && FromWorld(w, b) && (s.chain == [] || b.number >= Tip(s).number)
    ensures s.chain == [] ==> Update(s, b).1 == NoEvent && Update(s, b).0.chain == [b]
    ensures s.chain != [] && b.number == Tip(s).number && b.hash == Tip(s).hash ==> Update(s, b) == (s, NoEvent)
    ensures s.chain != [] && b.number == Tip(s).number && b.hash != Tip(s).hash ==>
      Update(s, b).1 == Happened(Rollback(b.number, b.number)) && Update(s, b).0.chain == s.chain[..|s.chain| - 1] + [b]
    ensures s.chain != [] && b.number == Tip(s).number + 1 && b.parent == Tip(s).hash ==>
      Update(s, b).1 == NoEvent && Update(s, b).0.chain == Latest(s.chain + [b])
    ensures s.chain != [] && b.number == Tip(s).number + 1 && b.parent != Tip(s).hash ==>
      CutOrRefused(s, b, Update(s, b).0, Update(s, b).1)
    ensures s.chain != [] && b.number > Tip(s).number + 1 ==>
      Update(s, b).1 == NoEvent && Update(s, b).0.chain == Latest(s.chain + [b])
  {
    AppendLatest(s, b);
    if s.chain != [] && b.number == Tip(s).number + 1 && b.parent != Tip(s).hash {
      ParentMismatchCuts(w, s, b);
    }
    hide Consistent, Lawful, FromWorld, CutAndExtended, ParentMismatch, Append;
  }

  lemma AnsweredBelowTip(w: World, s: State, b: Block)
    requires Lawful(w) && Inv(w, s) && FromWorld(w, b) && s.chain != [] && b.number < Tip(s).number
    ensures Conflicts(s.chain, b) ==> CutOrRefused(s, b, Update(s, b).0, Update(s, b).1)
    ensures !Conflicts(s.chain, b) ==> Update(s, b) == (s, NoEvent)
  {
    ConflictIsIndexed(w, s, b);
    OlderParentIsBelow(w, s, b);
    if b.parent != Tip(s).hash {
      ParentMismatchCuts(w, s, b);
    }
    hide Consistent, Lawful, FromWorld, CutAndExtended, ParentMismatch, Append, Conflicts;
  }

  /** No event means that the block extends the tip or jumps ahead of it, is in the chain already, or has
      a number below the tip that the chain does not hold. */
  lemma QuietMeans(w: World, s: State, b: Block)
    requires Lawful(w) && Inv(w, s) && FromWorld(w, b) && Update(s, b).1 == NoEvent
    ensures || s.chain == []
            || (b.number == Tip(s).number + 1 && b.parent == Tip(s).hash)
            || b.number > Tip(s).number + 1
            || (exists k :: 0 <= k < |s.chain| && s.chain[k].number == b.number && s.chain[k].hash == b.hash)
            || (b.number < Tip(s).number && forall k :: 0 <= k < |s.chain| ==> s.chain[k].number != b.number)
  {
    ObservationAnswered(w, s, b);
    hide Update, Inv, Lawful, FromWorld, CutAndExtended;
    if s.chain != [] && b.number == Tip(s).number {
      assert s.chain[|s.chain| - 1].number == b.number;
    }
  }

  // ----- whole runs

  datatype Op = Observe(block: Block) | RollBack(number: nat)

  function Do(s: State, op: Op): State {
    match op
    case Observe(b) => Update(s, b).0
    case RollBack(number) => RollbackToNumber(s, number)
  }

  function Run(ops: seq<Op>): State {
    if ops == [] then EMPTY else Do(Run(ops[..|ops| - 1]), ops[|ops| - 1])
  }

  /** One observation adds nothing to the chain but its block. */
  lemma AddsOnlyItself(w: World, s: State, b: Block, x: Block)
    requires Lawful(w) && Inv(w, s) && FromWorld(w, b) && x in Update(s, b).0.chain
    ensures x == b || x in s.chain
  {
    ObservationAnswered(w, s, b);
    hide Update, Inv, Lawful, FromWorld, Conflicts, Latest, CutOrRefused;
    if x in Latest(s.chain + [b]) {
      LatestAddsNothing(s.chain + [b], x);
    }
    if s.chain != [] && CutOrRefused(s, b, Update(s, b).0, Update(s, b).1) {
      CutAddsOnlyItself(s, b, Update(s, b).0, Update(s, b).1, x);
    }
  }

  lemma LatestAddsNothing(chain: seq<Block>, x: Block)
    requires x in Latest(chain)
    ensures x in chain
  {}

  lemma CutAddsOnlyItself(s: State, b: Block, t: State, r: Reply, x: Block)
    requires s.chain != [] && CutOrRefused(s, b, t, r) && x in t.chain
    ensures x == b || x in s.chain
  {}

  /** After any run the chain holds only blocks that were observed, and what the last operation left there. */
  lemma {:induction false} ChainWasObserved(w: World, ops: seq<Op>, x: Block)
    requires Lawful(w)
    requires forall i :: 0 <= i < |ops| && ops[i].Observe? ==> FromWorld(w, ops[i].block)
    requires x in Run(ops).chain
    ensures Observe(x) in ops
  {
    if ops != [] {
      var init, last := ops[..|ops| - 1], ops[|ops| - 1];
      assert ops == init + [last];
      RunKeepsInvariant(w, init);
      match last
      case Observe(b) =>
        AddsOnlyItself(w, Run(init), b, x);
        if x != b {
          ChainWasObserved(w, init, x);
        }
      case RollBack(number) =>
        var k := RollbackToNumberIsPrefix(w, Run(init), number);
        ChainWasObserved(w, init, x);
    }
  }

  /** A run goes on from where it was. */
  lemma RunGoesOn(ops: seq<Op>, op: Op)
    ensures Run([]) == EMPTY && Run(ops + [op]) == Do(Run(ops), op)
  {
    assert (ops + [op])[..|ops|] == ops;
  }

  /** After any sequence of observations and rollbacks the chain is strictly increasing, at
      most 128 long, and both indexes hold exactly its blocks. */
  lemma {:induction false} RunKeepsInvariant(w: World, ops: seq<Op>)
    requires Lawful(w)
    requires forall i :: 0 <= i < |ops| && ops[i].Observe? ==> FromWorld(w, ops[i].block)
    ensures Inv(w, Run(ops))
  {
    if ops != [] {
      var init := ops[..|ops| - 1];
      RunKeepsInvariant(w, init);
      match ops[|ops| - 1]
      case Observe(b) => UpdateKeeps(w, Run(init), b);
      case RollBack(number) =>
        var k := RollbackToNumberIsPrefix(w, Run(init), number);
    }
  }
}
