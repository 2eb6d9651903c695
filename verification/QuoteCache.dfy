/** The segmented least-recently-used quote cache (`src/router/exact_quoter.rs`). */
module QuoteCache {
  import opened Common

  /** `snapshot` selects the segment; `rest` is pool, tokens and amount. */
  datatype Key = Key(snapshot: nat, rest: nat)

  datatype Segment = Segment(entries: map<Key, nat>, lru: seq<Key>)

  type Segments = map<nat, Segment>

  const EMPTY_SEGMENT: Segment := Segment(map[], [])

  datatype Limits = Limits(segments: nat, entries: nat)

  // ----- one step of each method, as a function of the segments

  function Without(s: seq<Key>, key: Key): seq<Key> {
    if s == [] then []
    else Without(s[..|s| - 1], key) + (if s[|s| - 1] == key then [] else [s[|s| - 1]])
  }

  /** `touch`: move the key to the most recent end. */
  function Touch(s: Segment, key: Key): Segment {
    s.(lru := Without(s.lru, key) + [key])
  }

  function SegmentAt(m: Segments, id: nat): Segment {
    if id in m then m[id] else EMPTY_SEGMENT
  }

  function Lookup(m: Segments, key: Key): Option<nat> {
    var entries := SegmentAt(m, key.snapshot).entries;
    if key in entries then Some(entries[key]) else None
  }

  function AfterGet(m: Segments, key: Key): Segments {
    if Lookup(m, key).Some? then m[key.snapshot := Touch(m[key.snapshot], key)] else m
  }

  ghost predicate IsOldest(m: Segments, id: nat) {
    id in m && forall other :: other in m ==> id <= other
  }

  function Put(s: Segment, key: Key, value: nat): Segment {
    var s := if key in s.entries then Touch(s, key) else s.(lru := s.lru + [key]);
    s.(entries := s.entries[key := value])
  }

  /** Drop the least recently used entries until the limit holds or nothing is listed. */
  function Trim(s: Segment, limit: nat): Segment
    decreases |s.lru|
  {
    if |s.entries| > limit && s.lru != [] then Trim(Segment(s.entries - {s.lru[0]}, s.lru[1..]), limit) else s
  }

  ghost function OldestId(m: Segments): (id: nat)
    requires m != map[]
    ensures IsOldest(m, id)
  {
    assert m.Keys != {};
    OldestExists(m.Keys);
    var id :| id in m.Keys && forall other :: other in m.Keys ==> id <= other;
    id
  }

  /** Drop the segment with the smallest snapshot id. */
  ghost function WithoutOldest(m: Segments): (r: Segments)
    requires m != map[]
    ensures |r| == |m| - 1
  {
    assert (m - {OldestId(m)}).Keys == m.Keys - {OldestId(m)};
    m - {OldestId(m)}
  }

  /** `evict_old_segments_for_new_segment` */
  ghost function Evict(m: Segments, limit: nat): Segments
    decreases |m|
  {
    if |m| >= limit && m != map[] then Evict(WithoutOldest(m), limit) else m
  }

  ghost function AfterInsert(m: Segments, key: Key, value: nat, limits: Limits): Segments {
    var room := if key.snapshot in m then m else Evict(m, limits.segments);
    room[key.snapshot := Trim(Put(SegmentAt(room, key.snapshot), key, value), limits.entries)]
  }

  lemma OldestExists(ids: set<nat>)
    requires ids != {}
    ensures exists id :: id in ids && forall other :: other in ids ==> id <= other
  {
    var x :| x in ids;
    OldestBelow(ids, x);
  }

  lemma {:induction false} OldestBelow(ids: set<nat>, x: nat)
    requires x in ids
    ensures exists id :: id in ids && forall other :: other in ids ==> id <= other
    decreases x
  {
    if y: nat :| y in ids && y < x {
      OldestBelow(ids, y);
    }
  }

  // ----- the cache itself

  class QuoteCache {
    const limits: Limits
    var segments: Segments

    constructor (limits: Limits)
      ensures this.limits == limits && segments == map[]
    {
      this.limits := limits;
      segments := map[];
    }

    method Get(key: Key) returns (r: Option<nat>)
      modifies this
      ensures r == Lookup(old(segments), key)
      ensures segments == AfterGet(old(segments), key)
    {
      if key.snapshot !in segments {
        return None;
      }
      var segment := segments[key.snapshot];
      if key !in segment.entries {
        return None;
      }
      r := Some(segment.entries[key]);
      segments := segments[key.snapshot := Touch(segment, key)];
    }

    method EvictOldSegments()
      modifies this
      ensures segments == Evict(old(segments), limits.segments)
    {
      while |segments| >= limits.segments
        invariant Evict(segments, limits.segments) == Evict(old(segments), limits.segments)
        decreases |segments|
      {
        if segments == map[] {
          break;
        }
        ghost var known := OldestId(segments);
        var oldest :| oldest in segments && forall other :: other in segments ==> oldest <= other;
        assert oldest == known;
        ghost var rest := WithoutOldest(segments);
        segments := segments - {oldest};
      }
    }

    method Insert(key: Key, value: nat)
      modifies this
      ensures segments == AfterInsert(old(segments), key, value, limits)
    {
      if key.snapshot !in segments {
        EvictOldSegments();
      }
      var segment := SegmentAt(segments, key.snapshot);
      ghost var start := segment;
      if key !in segment.entries {
        segment := segment.(lru := segment.lru + [key]);
      } else {
        segment := Touch(segment, key);
      }
      segment := segment.(entries := segment.entries[key := value]);
      while |segment.entries| > limits.entries
        invariant Trim(segment, limits.entries) == Trim(Put(start, key, value), limits.entries)
        decreases |segment.lru|
      {
        if segment.lru == [] {
          break;
        }
        segment := Segment(segment.entries - {segment.lru[0]}, segment.lru[1..]);
      }
      segments := segments[key.snapshot := segment];
    }
  }

  // ----- what every operation keeps

  type Rank = Key -> nat

  /** Ascending rank; in particular nothing is listed twice. */
  ghost predicate Ascending(lru: seq<Key>, rank: Rank) {
    forall i, j :: 0 <= i < j < |lru| ==> rank(lru[i]) < rank(lru[j])
  }

  /** The list orders exactly the entries, least recently used first, and all entries belong
      to the segment. */
  ghost predicate SegmentValid(id: nat, s: Segment, rank: Rank) {
    && Ascending(s.lru, rank)
    && (forall k :: k in s.lru <==> k in s.entries)
    && (forall k :: k in s.entries ==> k.snapshot == id)
  }

  ghost predicate CacheValid(m: Segments, limits: Limits, rank: Rank) {
    && |m| <= Max(limits.segments, 1)
    && forall id :: id in m ==> SegmentValid(id, m[id], rank) && |m[id].entries| <= limits.entries
  }

  lemma {:induction false} WithoutFacts(s: seq<Key>, key: Key, rank: Rank)
    ensures forall k :: k in Without(s, key) <==> k in s && k != key
    ensures Ascending(s, rank) ==> Ascending(Without(s, key), rank)
  {
    if s != [] {
      var init, last := s[..|s| - 1], s[|s| - 1];
      WithoutFacts(init, key, rank);
      assert forall k :: k in s <==> k in init || k == last;
      if Ascending(s, rank) {
        forall k | k in init ensures rank(k) < rank(last) {
          var i :| 0 <= i < |init| && init[i] == k;
          assert s[i] == k;
        }
      }
    }
  }

  /** `rank'` moves `key` above everything and leaves the rest alone. */
  ghost predicate Promotes(rank: Rank, rank': Rank, key: Key) {
    && (forall k :: k != key ==> rank'(k) == rank(k))
    && (forall k :: k != key ==> rank'(k) < rank'(key))
  }

  lemma MovedToBack(s: seq<Key>, key: Key, rank: Rank, rank': Rank)
    requires Ascending(s, rank) && Promotes(rank, rank', key)
    ensures Ascending(Without(s, key) + [key], rank')
    ensures forall k :: k in Without(s, key) + [key] <==> k in s || k == key
  {
    WithoutFacts(s, key, rank);
    var kept := Without(s, key);
    forall i, j | 0 <= i < j < |kept + [key]| ensures rank'((kept + [key])[i]) < rank'((kept + [key])[j]) {
      assert (kept + [key])[i] in kept;
      assert kept[i] != key;
      if j < |kept| {
        assert kept[j] in kept;
        assert rank(kept[i]) < rank(kept[j]);
      }
    }
  }

  /** A segment no operation looked at keeps its order. */
  lemma Untouched(id: nat, s: Segment, key: Key, rank: Rank, rank': Rank)
    requires SegmentValid(id, s, rank) && Promotes(rank, rank', key) && key !in s.entries
    ensures SegmentValid(id, s, rank')
  {
    forall i, j | 0 <= i < j < |s.lru| ensures rank'(s.lru[i]) < rank'(s.lru[j]) {
      assert s.lru[i] in s.entries && s.lru[j] in s.entries;
    }
  }

  lemma TouchKeeps(id: nat, s: Segment, key: Key, rank: Rank, rank': Rank)
    requires SegmentValid(id, s, rank) && Promotes(rank, rank', key) && key in s.entries
    ensures SegmentValid(id, Touch(s, key), rank')
  {
    MovedToBack(s.lru, key, rank, rank');
  }

  lemma {:induction false} WithoutAbsent(s: seq<Key>, key: Key)
    requires key !in s
    ensures Without(s, key) == s
  {
    if s != [] {
      var init, last := s[..|s| - 1], s[|s| - 1];
      assert s == init + [last] && key !in init && last != key;
      WithoutAbsent(init, key);
    }
  }

  lemma PutKeeps(id: nat, s: Segment, key: Key, value: nat, rank: Rank, rank': Rank)
    requires SegmentValid(id, s, rank) && Promotes(rank, rank', key) && key.snapshot == id
    ensures SegmentValid(id, Put(s, key, value), rank')
    ensures Put(s, key, value).lru == Without(s.lru, key) + [key]
  {
    MovedToBack(s.lru, key, rank, rank');
    if key !in s.entries {
      WithoutAbsent(s.lru, key);
    }
  }

  lemma FirstListedOnce(lru: seq<Key>, rank: Rank)
    requires Ascending(lru, rank) && lru != []
    ensures lru[0] !in lru[1..] && Ascending(lru[1..], rank)
  {
    forall i | 0 <= i < |lru[1..]| ensures lru[1..][i] != lru[0] {
      assert rank(lru[0]) < rank(lru[i + 1]);
    }
  }

  lemma {:induction false} ListedOnce(lru: seq<Key>, keys: set<Key>, rank: Rank)
    requires Ascending(lru, rank) && forall k :: k in lru <==> k in keys
    ensures |lru| == |keys|
  {
    if lru == [] {
      assert keys == {};
    } else {
      FirstListedOnce(lru, rank);
      hide Ascending;
      var first, rest := lru[0], lru[1..];
      assert lru == [first] + rest;
      ListedOnce(rest, keys - {first}, rank);
      assert first in keys;
    }
  }

  /** At most one entry too many: trimming drops exactly the least recently used one. */
  lemma TrimDropsOldest(id: nat, s: Segment, limit: nat, rank: Rank)
    requires SegmentValid(id, s, rank) && |s.entries| <= limit + 1
    ensures SegmentValid(id, Trim(s, limit), rank) && |Trim(s, limit).entries| <= limit
    ensures |s.entries| <= limit ==> Trim(s, limit) == s
    ensures |s.entries| == limit + 1 ==>
      s.lru != [] && Trim(s, limit) == Segment(s.entries - {s.lru[0]}, s.lru[1..])
  {
    ListedOnce(s.lru, s.entries.Keys, rank);
    if |s.entries| == limit + 1 {
      DropFirstKeeps(id, s, rank);
    }
  }

  lemma DropFirstKeeps(id: nat, s: Segment, rank: Rank)
    requires SegmentValid(id, s, rank) && s.lru != []
    ensures var t := Segment(s.entries - {s.lru[0]}, s.lru[1..]);
      SegmentValid(id, t, rank) && |t.entries| == |s.entries| - 1
  {
    var first, rest := s.lru[0], s.lru[1..];
    AscendingTail(s.lru, rank);
    assert first in s.lru;
    assert forall k :: k in s.lru <==> k == first || k in rest;
    hide Ascending;
    assert (s.entries - {first}).Keys == s.entries.Keys - {first};
  }

  lemma AscendingTail(lru: seq<Key>, rank: Rank)
    requires Ascending(lru, rank) && lru != []
    ensures Ascending(lru[1..], rank) && lru[0] !in lru[1..]
    ensures forall k :: k in lru[1..] ==> rank(lru[0]) < rank(k)
  {
    forall k | k in lru[1..] ensures rank(lru[0]) < rank(k) {
      var i :| 0 <= i < |lru[1..]| && lru[1..][i] == k;
      assert rank(lru[0]) < rank(lru[i + 1]);
    }
  }

  ghost predicate KeptFrom(m: Segments, kept: Segments) {
    forall id :: id in kept ==> id in m && kept[id] == m[id]
  }

  lemma {:induction false} EvictKeepsRest(m: Segments, limit: nat)
    ensures |Evict(m, limit)| < limit || Evict(m, limit) == map[]
    ensures KeptFrom(m, Evict(m, limit))
    decreases |m|
  {
    if |m| >= limit && m != map[] {
      EvictKeepsRest(WithoutOldest(m), limit);
    }
  }

  /** Eviction drops the oldest segments: whatever is gone is older than whatever stays. */
  lemma {:induction false} EvictDropsOldest(m: Segments, limit: nat, gone: nat, id: nat)
    requires gone in m && gone !in Evict(m, limit) && id in Evict(m, limit)
    ensures gone < id
    decreases |m|
  {
    EvictKeepsRest(m, limit);
    if |m| >= limit && m != map[] {
      var oldest, rest := OldestId(m), WithoutOldest(m);
      assert IsOldest(m, oldest);
      EvictKeepsRest(rest, limit);
      if gone != oldest {
        EvictDropsOldest(rest, limit, gone, id);
      }
    }
  }

  lemma PutSize(s: Segment, key: Key, value: nat)
    ensures key in s.entries ==> |Put(s, key, value).entries| == |s.entries|
    ensures key !in s.entries ==> |Put(s, key, value).entries| == |s.entries| + 1
  {
    var entries := s.entries[key := value];
    if key in s.entries {
      assert entries.Keys == s.entries.Keys;
    } else {
      assert entries.Keys == s.entries.Keys + {key};
    }
  }

  /** The segment an insertion writes to, before trimming. */
  ghost function Target(m: Segments, key: Key, limits: Limits): Segment {
    SegmentAt(if key.snapshot in m then m else Evict(m, limits.segments), key.snapshot)
  }

  lemma TargetValid(m: Segments, key: Key, limits: Limits, rank: Rank)
    requires CacheValid(m, limits, rank)
    ensures SegmentValid(key.snapshot, Target(m, key, limits), rank)
    ensures |Target(m, key, limits).entries| <= limits.entries
  {
    EvictKeepsRest(m, limits.segments);
  }

  lemma RoomFacts(m: Segments, key: Key, limits: Limits, rank: Rank)
    requires CacheValid(m, limits, rank)
    ensures var room := if key.snapshot in m then m else Evict(m, limits.segments);
      && KeptFrom(m, room)
      && |room[key.snapshot := EMPTY_SEGMENT]| <= Max(limits.segments, 1)
  {
    hide SegmentValid, Evict;
    EvictKeepsRest(m, limits.segments);
    var room := if key.snapshot in m then m else Evict(m, limits.segments);
    assert room[key.snapshot := EMPTY_SEGMENT].Keys == room.Keys + {key.snapshot};
  }

  lemma WrittenSegmentValid(m: Segments, key: Key, value: nat, limits: Limits, rank: Rank, rank': Rank)
    requires CacheValid(m, limits, rank) && Promotes(rank, rank', key)
    ensures var t := Trim(Put(Target(m, key, limits), key, value), limits.entries);
      SegmentValid(key.snapshot, t, rank') && |t.entries| <= limits.entries
  {
    hide SegmentValid, Put, Trim, Promotes, Evict, CacheValid, Target;
    var target := Target(m, key, limits);
    TargetValid(m, key, limits, rank);
    PutKeeps(key.snapshot, target, key, value, rank, rank');
    PutSize(target, key, value);
    TrimDropsOldest(key.snapshot, Put(target, key, value), limits.entries, rank');
  }

  lemma OtherSegmentValid(m: Segments, id: nat, key: Key, limits: Limits, rank: Rank, rank': Rank)
    requires CacheValid(m, limits, rank) && Promotes(rank, rank', key) && id in m && id != key.snapshot
    ensures SegmentValid(id, m[id], rank') && |m[id].entries| <= limits.entries
  {
    hide SegmentValid, Promotes;
    NotIn(id, m[id], key, rank);
    Untouched(id, m[id], key, rank, rank');
  }

  lemma UpdateSize(m: Segments, id: nat, s: Segment, t: Segment)
    ensures |m[id := s]| == |m[id := t]|
  {
    assert m[id := s].Keys == m[id := t].Keys;
    assert |m[id := s]| == |m[id := s].Keys| && |m[id := t]| == |m[id := t].Keys|;
  }

  lemma InsertKeeps(m: Segments, key: Key, value: nat, limits: Limits, rank: Rank, rank': Rank)
    requires CacheValid(m, limits, rank) && Promotes(rank, rank', key)
    ensures CacheValid(AfterInsert(m, key, value, limits), limits, rank')
  {
    hide SegmentValid, Put, Trim, Promotes, Evict;
    var room := if key.snapshot in m then m else Evict(m, limits.segments);
    var written := Trim(Put(Target(m, key, limits), key, value), limits.entries);
    WrittenSegmentValid(m, key, value, limits, rank, rank');
    RoomFacts(m, key, limits, rank);
    UpdateSize(room, key.snapshot, EMPTY_SEGMENT, written);
    var after := room[key.snapshot := written];
    forall id | id in after ensures SegmentValid(id, after[id], rank') && |after[id].entries| <= limits.entries {
      if id != key.snapshot {
        OtherSegmentValid(m, id, key, limits, rank, rank');
      }
    }
  }

  lemma NotIn(id: nat, s: Segment, key: Key, rank: Rank)
    requires SegmentValid(id, s, rank) && key.snapshot != id
    ensures key !in s.entries
  {}

  lemma GetKeeps(m: Segments, key: Key, limits: Limits, rank: Rank, rank': Rank)
    requires CacheValid(m, limits, rank) && Promotes(rank, rank', key)
    ensures CacheValid(AfterGet(m, key), limits, rank')
  {
    hide SegmentValid, Promotes, Touch;
    var after := AfterGet(m, key);
    assert after.Keys == m.Keys;
    forall id | id in after ensures SegmentValid(id, after[id], rank') && |after[id].entries| <= limits.entries {
      if id == key.snapshot && key in m[id].entries {
        TouchKeeps(id, m[id], key, rank, rank');
        SameEntries(m[id], key);
      } else {
        if id != key.snapshot {
          NotIn(id, m[id], key, rank);
        }
        Untouched(id, m[id], key, rank, rank');
      }
    }
  }

  lemma SameEntries(s: Segment, key: Key)
    ensures Touch(s, key).entries == s.entries
  {}

  // ----- whole runs against a plain map

  datatype Op = GetOp(key: Key) | InsertOp(key: Key, value: nat)

  ghost function Run(limits: Limits, ops: seq<Op>): Segments {
    if ops == [] then map[]
    else
      var m, op := Run(limits, ops[..|ops| - 1]), ops[|ops| - 1];
      match op
      case GetOp(key) => AfterGet(m, key)
      case InsertOp(key, value) => AfterInsert(m, key, value, limits)
  }

  /** What a map without limits would hold. */
  function PlainMap(ops: seq<Op>): map<Key, nat> {
    if ops == [] then map[]
    else
      var m, op := PlainMap(ops[..|ops| - 1]), ops[|ops| - 1];
      if op.InsertOp? then m[op.key := op.value] else m
  }

  /** When a key was last used, counted from one; zero if never. */
  function LastUse(ops: seq<Op>, key: Key): nat {
    if ops == [] then 0
    else if ops[|ops| - 1].key == key then |ops|
    else LastUse(ops[..|ops| - 1], key)
  }

  function UseRank(ops: seq<Op>): Rank {
    (key: Key) => LastUse(ops, key)
  }

  lemma {:induction false} LastUseBound(ops: seq<Op>, key: Key)
    ensures LastUse(ops, key) <= |ops|
  {
    if ops != [] {
      LastUseBound(ops[..|ops| - 1], key);
    }
  }

  lemma UsePromotes(ops: seq<Op>)
    requires ops != []
    ensures Promotes(UseRank(ops[..|ops| - 1]), UseRank(ops), ops[|ops| - 1].key)
  {
    var before, key := ops[..|ops| - 1], ops[|ops| - 1].key;
    var rank, rank' := UseRank(before), UseRank(ops);
    forall k | k != key ensures rank'(k) == rank(k) && rank'(k) < rank'(key) {
      LastUseBound(before, k);
      assert rank'(k) == LastUse(ops, k) == LastUse(before, k) == rank(k);
      assert rank'(key) == LastUse(ops, key) == |ops|;
    }
  }

  /** Over any run every segment's list orders exactly its entries by last use, without
      duplicates, and both limits hold. */
  lemma {:induction false} RunIsValid(limits: Limits, ops: seq<Op>)
    ensures CacheValid(Run(limits, ops), limits, UseRank(ops))
  {
    if ops != [] {
      hide CacheValid, AfterGet, AfterInsert, Promotes;
      var before, op := ops[..|ops| - 1], ops[|ops| - 1];
      RunIsValid(limits, before);
      UsePromotes(ops);
      match op {
        case GetOp(key) => GetKeeps(Run(limits, before), key, limits, UseRank(before), UseRank(ops));
        case InsertOp(key, value) => InsertKeeps(Run(limits, before), key, value, limits, UseRank(before), UseRank(ops));
      }
    } else {
      EmptyIsValid(limits, UseRank(ops));
    }
  }

  lemma EmptyIsValid(limits: Limits, rank: Rank)
    ensures CacheValid(map[], limits, rank)
  {}

  /** What survives an insertion is the value inserted or an old value. */
  lemma InsertedOrOld(m: Segments, key: Key, value: nat, limits: Limits, rank: Rank, k: Key)
    requires CacheValid(m, limits, rank)
    ensures var after := Lookup(AfterInsert(m, key, value, limits), k);
      after.Some? ==> if k == key then after == Some(value) else after == Lookup(m, k)
  {
    EvictKeepsRest(m, limits.segments);
    var target := Target(m, key, limits);
    TrimIsRestriction(Put(target, key, value), limits.entries);
  }

  lemma {:induction false} TrimIsRestriction(s: Segment, limit: nat)
    ensures forall k :: k in Trim(s, limit).entries ==> k in s.entries && Trim(s, limit).entries[k] == s.entries[k]
    decreases |s.lru|
  {
    if |s.entries| > limit && s.lru != [] {
      TrimIsRestriction(Segment(s.entries - {s.lru[0]}, s.lru[1..]), limit);
    }
  }

  /** A hit returns the value last inserted for exactly that key. */
  lemma {:induction false} HitIsLastInserted(limits: Limits, ops: seq<Op>, key: Key)
    ensures Lookup(Run(limits, ops), key).Some? ==>
      key in PlainMap(ops) && Lookup(Run(limits, ops), key) == Some(PlainMap(ops)[key])
  {
    if ops != [] {
      var before, op := ops[..|ops| - 1], ops[|ops| - 1];
      HitIsLastInserted(limits, before, key);
      if op.InsertOp? {
        RunIsValid(limits, before);
        hide AfterInsert, CacheValid;
        InsertedOrOld(Run(limits, before), op.key, op.value, limits, UseRank(before), key);
      }
    }
  }

  /** With room for at least one entry, what was just inserted is found. */
  lemma JustInsertedSurvives(limits: Limits, ops: seq<Op>, key: Key, value: nat)
    requires limits.entries > 0
    ensures Lookup(Run(limits, ops + [InsertOp(key, value)]), key) == Some(value)
  {
    var m := Run(limits, ops);
    assert (ops + [InsertOp(key, value)])[..|ops|] == ops;
    RunIsValid(limits, ops);
    InsertSurvives(m, key, value, limits, ops);
  }

  lemma InsertSurvives(m: Segments, key: Key, value: nat, limits: Limits, ops: seq<Op>)
    requires limits.entries > 0 && CacheValid(m, limits, UseRank(ops))
    ensures Lookup(AfterInsert(m, key, value, limits), key) == Some(value)
  {
    hide SegmentValid, Put, Trim, Evict;
    var target := Target(m, key, limits);
    TargetValid(m, key, limits, UseRank(ops));
    PutAndTrim(target, key, value, limits.entries, ops);
  }

  /** What writing to one segment does to its entries. */
  lemma PutAndTrim(s: Segment, key: Key, value: nat, limit: nat, ops: seq<Op>)
    requires SegmentValid(key.snapshot, s, UseRank(ops)) && |s.entries| <= limit && limit > 0
    ensures var t := Trim(Put(s, key, value), limit);
      && key in t.entries && t.entries[key] == value
      && (key in s.entries || |s.entries| < limit ==> t.entries == s.entries[key := value])
      && (key !in s.entries && |s.entries| == limit ==> s.lru != [] && t.entries == s.entries[key := value] - {s.lru[0]})
  {
    var next := ops + [InsertOp(key, value)];
    assert next[..|ops|] == ops;
    UsePromotes(next);
    WriteAndTrim(s, key, value, limit, UseRank(ops), UseRank(next));
  }

  lemma WriteAndTrim(s: Segment, key: Key, value: nat, limit: nat, rank: Rank, rank': Rank)
    requires SegmentValid(key.snapshot, s, rank) && |s.entries| <= limit && limit > 0 && Promotes(rank, rank', key)
    ensures var t := Trim(Put(s, key, value), limit);
      && key in t.entries && t.entries[key] == value
      && (key in s.entries || |s.entries| < limit ==> t.entries == s.entries[key := value])
      && (key !in s.entries && |s.entries| == limit ==> s.lru != [] && t.entries == s.entries[key := value] - {s.lru[0]})
  {
    hide Promotes, Trim, Ascending, Without;
    var put := Put(s, key, value);
    PutKeeps(key.snapshot, s, key, value, rank, rank');
    PutSize(s, key, value);
    TrimDropsOldest(key.snapshot, put, limit, rank');
    if key !in s.entries && |s.entries| == limit {
      ListedOnce(s.lru, s.entries.Keys, rank);
      assert put.lru == s.lru + [key];
      assert s.lru[0] in s.lru;
      assert put.lru[0] == s.lru[0] != key;
    }
  }

  /** An insertion into a segment that is already full loses exactly the least recently used
      entry of that segment; otherwise the segment loses nothing. */
  lemma EvictedIsLeastRecent(limits: Limits, ops: seq<Op>, key: Key, value: nat)
    requires limits.entries > 0
    ensures var m, after := Run(limits, ops), Run(limits, ops + [InsertOp(key, value)]);
      key.snapshot in m ==>
        var was, now := m[key.snapshot].entries, SegmentAt(after, key.snapshot).entries;
        if key in was || |was| < limits.entries then now == was[key := value]
        else exists lost :: lost in was && now == was[key := value] - {lost} && LeastRecent(ops, was, lost)
  {
    var m := Run(limits, ops);
    var next := ops + [InsertOp(key, value)];
    assert next[..|ops|] == ops;
    RunIsValid(limits, ops);
    if key.snapshot in m {
      var s := m[key.snapshot];
      PutAndTrim(s, key, value, limits.entries, ops);
      hide Trim, Put;
      if key !in s.entries && |s.entries| == limits.entries {
        FrontIsLeastRecent(key.snapshot, s, ops);
      }
    }
  }

  ghost predicate LeastRecent(ops: seq<Op>, entries: map<Key, nat>, lost: Key) {
    forall other :: other in entries && other != lost ==> LastUse(ops, lost) < LastUse(ops, other)
  }

  lemma FrontIsLeastRecent(id: nat, s: Segment, ops: seq<Op>)
    requires SegmentValid(id, s, UseRank(ops)) && s.lru != []
    ensures s.lru[0] in s.entries && LeastRecent(ops, s.entries, s.lru[0])
  {
    AscendingTail(s.lru, UseRank(ops));
    var lost := s.lru[0];
    assert lost in s.lru;
    assert s.lru == [lost] + s.lru[1..];
    forall other | other in s.entries && other != lost ensures LastUse(ops, lost) < LastUse(ops, other) {
      assert other in s.lru;
      assert UseRank(ops)(lost) < UseRank(ops)(other);
    }
  }

  /** One too many: eviction makes exactly one step. */
  lemma EvictOne(m: Segments, limit: nat)
    requires |m| == limit > 0
    ensures IsOldest(m, OldestId(m)) && Evict(m, limit).Keys == m.Keys - {OldestId(m)}
  {
    var rest := WithoutOldest(m);
    assert |rest| < limit;
    assert Evict(rest, limit) == rest;
  }

  /** A new snapshot pushes out exactly the oldest one, and only when all segments are taken. */
  lemma NewSegmentEvictsOldest(limits: Limits, ops: seq<Op>, key: Key, value: nat)
    requires limits.segments > 0 && key.snapshot !in Run(limits, ops)
    ensures var m, after := Run(limits, ops), Run(limits, ops + [InsertOp(key, value)]);
      if |m| < limits.segments then after.Keys == m.Keys + {key.snapshot}
      else exists gone :: IsOldest(m, gone) && after.Keys == m.Keys - {gone} + {key.snapshot}
  {
    var m := Run(limits, ops);
    hide Trim, Put, IsOldest, Run;
    SizeAfterRun(limits, ops);
    NewSegment(m, key, value, limits);
    RunStep(limits, ops, key, value);
  }

  lemma RunStep(limits: Limits, ops: seq<Op>, key: Key, value: nat)
    ensures Run(limits, ops + [InsertOp(key, value)]) == AfterInsert(Run(limits, ops), key, value, limits)
  {
    assert (ops + [InsertOp(key, value)])[..|ops|] == ops;
    hide AfterInsert, AfterGet;
  }

  lemma SizeAfterRun(limits: Limits, ops: seq<Op>)
    ensures |Run(limits, ops)| <= Max(limits.segments, 1)
  {
    hide SegmentValid;
    RunIsValid(limits, ops);
  }

  lemma NewSegment(m: Segments, key: Key, value: nat, limits: Limits)
    requires 0 < limits.segments && |m| <= limits.segments && key.snapshot !in m
    ensures var after := AfterInsert(m, key, value, limits);
      if |m| < limits.segments then after.Keys == m.Keys + {key.snapshot}
      else exists gone :: IsOldest(m, gone) && after.Keys == m.Keys - {gone} + {key.snapshot}
  {
    hide Trim, Put, IsOldest;
    if |m| >= limits.segments {
      EvictOne(m, limits.segments);
    }
  }

  // ----- exactly which keys are held

  /** The keys of a segment since it was created, by last use and whatever their number: an insertion
      or a hit moves its key to the end. */
  ghost function Recency(limits: Limits, ops: seq<Op>, id: nat): seq<Key> {
    if ops == [] then []
    else
      var before, op := ops[..|ops| - 1], ops[|ops| - 1];
      var keys := Recency(limits, before, id);
      if id !in Run(limits, ops) then []
      else if op.key.snapshot == id && (op.InsertOp? || Lookup(Run(limits, before), op.key).Some?)
      then Without(keys, op.key) + [op.key] else keys
  }

  function LastOf(s: seq<Key>, n: nat): seq<Key> {
    s[|s| - Min(n, |s|)..]
  }

  lemma {:induction false} WithoutSplits(s: seq<Key>, t: seq<Key>, key: Key)
    ensures Without(s + t, key) == Without(s, key) + Without(t, key)
  {
    if t == [] {
      assert s + t == s;
    } else {
      WithoutSplits(s, t[..|t| - 1], key);
      assert (s + t)[..|s + t| - 1] == s + t[..|t| - 1];
    }
  }

  lemma {:induction false} WithoutOnce(s: seq<Key>, key: Key)
    requires NoDup(s)
    ensures NoDup(Without(s, key)) && forall k :: k in Without(s, key) <==> k in s && k != key
    ensures |Without(s, key)| == if key in s then |s| - 1 else |s|
  {
    if s != [] {
      var init, last := s[..|s| - 1], s[|s| - 1];
      assert s == init + [last] && NoDup(init) && last !in init;
      WithoutOnce(init, key);
    }
  }

  lemma MovedOnce(s: seq<Key>, key: Key)
    requires NoDup(s)
    ensures NoDup(Without(s, key) + [key])
  {
    WithoutOnce(s, key);
    NoDupPush(Without(s, key), key);
  }

  lemma NoDupParts(a: seq<Key>, b: seq<Key>)
    requires NoDup(a + b)
    ensures NoDup(b) && forall k :: k in b ==> k !in a
  {
    forall i, j | 0 <= i < |a| && 0 <= j < |b| ensures a[i] != b[j] {
      assert (a + b)[i] == a[i] && (a + b)[|a| + j] == b[j];
    }
    forall i, j | 0 <= i < j < |b| ensures b[i] != b[j] {
      assert (a + b)[|a| + i] == b[i] && (a + b)[|a| + j] == b[j];
    }
  }

  lemma LastOfAppend(a: seq<Key>, b: seq<Key>, n: nat)
    requires |b| == Min(n, |a| + |b|)
    ensures LastOf(a + b, n) == b
  {}

  lemma LastOfSplits(s: seq<Key>, n: nat) returns (older: seq<Key>)
    ensures s == older + LastOf(s, n) && |LastOf(s, n)| == Min(n, |s|)
  {
    older := s[..|s| - Min(n, |s|)];
  }

  /** Using a key that is among the last `n` moves it within them. */
  lemma MovedWithin(s: seq<Key>, n: nat, key: Key)
    requires NoDup(s) && key in LastOf(s, n)
    ensures LastOf(Without(s, key) + [key], n) == Without(LastOf(s, n), key) + [key]
  {
    var kept := LastOf(s, n);
    var older := LastOfSplits(s, n);
    hide LastOf;
    NoDupParts(older, kept);
    WithoutSplits(older, kept, key);
    WithoutAbsent(older, key);
    WithoutOnce(kept, key);
    hide Without, NoDup;
    var moved := Without(kept, key) + [key];
    AppendAssociates(older, Without(kept, key), [key]);
    LastOfAppend(older, moved, n);
  }

  lemma AppendAssociates(a: seq<Key>, b: seq<Key>, c: seq<Key>)
    ensures a + b + c == a + (b + c)
  {}

  lemma PushedOut(first: seq<Key>, more: seq<Key>, n: nat)
    requires 0 < |more| <= n + 1 && (|more| <= n ==> first == [])
    ensures LastOf(first + more, n) == if |more| <= n then more else more[1..]
  {
    if |more| <= n {
      assert first + more == more;
    } else {
      assert first + more == (first + more[..1]) + more[1..];
      LastOfAppend(first + more[..1], more[1..], n);
    }
  }

  lemma SplitWithout(older: seq<Key>, kept: seq<Key>, key: Key)
    requires key !in kept
    ensures Without(older + kept, key) + [key] == Without(older, key) + (kept + [key])
    ensures older == [] ==> Without(older, key) == []
  {
    WithoutSplits(older, kept, key);
    WithoutAbsent(kept, key);
  }

  /** Using another key pushes the oldest of them out, once there are `n`. */
  lemma MovedIn(s: seq<Key>, n: nat, key: Key)
    requires NoDup(s) && key !in LastOf(s, n)
    ensures var kept := LastOf(s, n);
      LastOf(Without(s, key) + [key], n) == if |kept| < n then kept + [key] else (kept + [key])[1..]
  {
    hide NoDup, Without;
    var kept, older := LastOf(s, n), s[..|s| - Min(n, |s|)];
    assert s == older + kept;
    SplitWithout(older, kept, key);
    hide LastOf;
    PushedOut(Without(older, key), kept + [key], n);
  }

  lemma WriteKeepsRecent(s: Segment, key: Key, value: nat, limit: nat, rank: Rank, rank': Rank, keys: seq<Key>)
    requires SegmentValid(key.snapshot, s, rank) && |s.entries| <= limit && Promotes(rank, rank', key)
    requires NoDup(keys) && s.lru == LastOf(keys, limit)
    ensures Trim(Put(s, key, value), limit).lru == LastOf(Without(keys, key) + [key], limit)
  {
    assert key in s.lru <==> key in s.entries;
    hide Promotes, Trim, Ascending, Without;
    PutKeeps(key.snapshot, s, key, value, rank, rank');
    PutSize(s, key, value);
    TrimDropsOldest(key.snapshot, Put(s, key, value), limit, rank');
    ListedOnce(s.lru, s.entries.Keys, rank);
    if key in s.lru {
      MovedWithin(keys, limit, key);
    } else {
      MovedIn(keys, limit, key);
      WithoutAbsent(s.lru, key);
    }
  }

  ghost predicate Recent(limits: Limits, ops: seq<Op>, id: nat) {
    && NoDup(Recency(limits, ops, id))
    && SegmentAt(Run(limits, ops), id).lru == LastOf(Recency(limits, ops, id), limits.entries)
    && (id !in Run(limits, ops) ==> Recency(limits, ops, id) == [])
  }

  lemma RunInsert(limits: Limits, ops: seq<Op>)
    requires ops != [] && ops[|ops| - 1].InsertOp?
    ensures var op := ops[|ops| - 1];
      Run(limits, ops) == AfterInsert(Run(limits, ops[..|ops| - 1]), op.key, op.value, limits)
  {
    hide AfterInsert;
  }

  lemma RunGet(limits: Limits, ops: seq<Op>)
    requires ops != [] && ops[|ops| - 1].GetOp?
    ensures Run(limits, ops) == AfterGet(Run(limits, ops[..|ops| - 1]), ops[|ops| - 1].key)
  {
    hide AfterGet;
  }

  /** A segment that is not written to keeps its list, unless it is evicted. */
  lemma InsertLeavesOthers(m: Segments, key: Key, value: nat, limits: Limits, id: nat)
    requires id != key.snapshot
    ensures var after := AfterInsert(m, key, value, limits);
      (id in after ==> id in m && after[id] == m[id])
  {
    EvictKeepsRest(m, limits.segments);
    hide Evict, Trim, Put;
  }

  lemma RecencyStep(limits: Limits, ops: seq<Op>, id: nat)
    requires ops != []
    ensures var before, op := ops[..|ops| - 1], ops[|ops| - 1];
      var keys := Recency(limits, before, id);
      Recency(limits, ops, id) ==
        if id !in Run(limits, ops) then []
        else if op.key.snapshot == id && (op.InsertOp? || Lookup(Run(limits, before), op.key).Some?)
        then Without(keys, op.key) + [op.key] else keys
  {
    hide Run, Without;
  }

  lemma InsertKeepsRecent(limits: Limits, ops: seq<Op>, id: nat)
    requires ops != [] && ops[|ops| - 1].InsertOp? && Recent(limits, ops[..|ops| - 1], id)
    ensures Recent(limits, ops, id)
  {
    hide Run, Recency, CacheValid, Without, AfterInsert, LastOf;
    RunInsert(limits, ops);
    RecencyStep(limits, ops, id);
    NoneRecent(limits.entries);
    var before, op := ops[..|ops| - 1], ops[|ops| - 1];
    if op.key.snapshot == id {
      RunIsValid(limits, before);
      WriteIsRecent(limits, ops, Recency(limits, before, id));
      MovedOnce(Recency(limits, before, id), op.key);
    } else {
      InsertLeavesOthers(Run(limits, before), op.key, op.value, limits, id);
    }
  }

  lemma NoneRecent(n: nat)
    ensures LastOf([], n) == []
  {}

  lemma WriteIsRecent(limits: Limits, ops: seq<Op>, keys: seq<Key>)
    requires ops != [] && ops[|ops| - 1].InsertOp? && NoDup(keys)
    requires var m, key := Run(limits, ops[..|ops| - 1]), ops[|ops| - 1].key;
      && CacheValid(m, limits, UseRank(ops[..|ops| - 1]))
      && SegmentAt(m, key.snapshot).lru == LastOf(keys, limits.entries) && (key.snapshot !in m ==> keys == [])
    ensures var op := ops[|ops| - 1];
      var after := AfterInsert(Run(limits, ops[..|ops| - 1]), op.key, op.value, limits);
      op.key.snapshot in after && after[op.key.snapshot].lru == LastOf(Without(keys, op.key) + [op.key], limits.entries)
  {
    hide Run, CacheValid, Without, AfterInsert, LastOf, Target, Trim, Put, SegmentValid, Promotes;
    var before, op := ops[..|ops| - 1], ops[|ops| - 1];
    var m := Run(limits, before);
    UsePromotes(ops);
    TargetValid(m, op.key, limits, UseRank(before));
    TargetRecent(m, op.key, limits, keys);
    WriteKeepsRecent(Target(m, op.key, limits), op.key, op.value, limits.entries, UseRank(before), UseRank(ops), keys);
    WrittenSegment(m, op.key, op.value, limits);
  }

  lemma TargetRecent(m: Segments, key: Key, limits: Limits, keys: seq<Key>)
    requires SegmentAt(m, key.snapshot).lru == LastOf(keys, limits.entries)
    requires key.snapshot !in m ==> keys == []
    ensures Target(m, key, limits).lru == LastOf(keys, limits.entries)
  {
    EvictKeepsRest(m, limits.segments);
    hide Evict;
  }

  lemma WrittenSegment(m: Segments, key: Key, value: nat, limits: Limits)
    ensures var after := AfterInsert(m, key, value, limits);
      key.snapshot in after && after[key.snapshot] == Trim(Put(Target(m, key, limits), key, value), limits.entries)
  {
    hide Evict, Trim, Put;
  }

  lemma GetKeepsRecent(limits: Limits, ops: seq<Op>, id: nat)
    requires ops != [] && ops[|ops| - 1].GetOp? && Recent(limits, ops[..|ops| - 1], id)
    ensures Recent(limits, ops, id)
  {
    hide Run, Recency, Without, LastOf;
    RunGet(limits, ops);
    RecencyStep(limits, ops, id);
    var before, key := ops[..|ops| - 1], ops[|ops| - 1].key;
    var m, keys := Run(limits, before), Recency(limits, before, id);
    RunIsValid(limits, before);
    if key.snapshot == id && Lookup(m, key).Some? {
      HeldIsListed(m, limits, UseRank(before), key);
      hide CacheValid;
      MovedWithin(keys, limits.entries, key);
      MovedOnce(keys, key);
    }
  }

  lemma HeldIsListed(m: Segments, limits: Limits, rank: Rank, key: Key)
    requires CacheValid(m, limits, rank) && key.snapshot in m
    ensures key in m[key.snapshot].lru <==> Lookup(m, key).Some?
  {
    hide Ascending;
    assert SegmentValid(key.snapshot, m[key.snapshot], rank);
  }

  lemma {:induction false} ListsAreRecent(limits: Limits, ops: seq<Op>, id: nat)
    ensures Recent(limits, ops, id)
  {
    if ops == [] {
      assert LastOf([], limits.entries) == [];
    } else {
      hide Recent;
      ListsAreRecent(limits, ops[..|ops| - 1], id);
      if ops[|ops| - 1].InsertOp? {
        InsertKeepsRecent(limits, ops, id);
      } else {
        GetKeepsRecent(limits, ops, id);
      }
    }
  }

  /** A key is held exactly if it is among the most recently used keys of its segment, as many as the
      limit allows, counted since the segment was created. */
  lemma HeldAreMostRecent(limits: Limits, ops: seq<Op>, key: Key)
    ensures Lookup(Run(limits, ops), key).Some? <==>
            key in LastOf(Recency(limits, ops, key.snapshot), limits.entries)
  {
    ListsAreRecent(limits, ops, key.snapshot);
    RunIsValid(limits, ops);
    hide Run, Recency;
  }
}
