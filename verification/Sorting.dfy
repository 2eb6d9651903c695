/** A stable sort on values, standing for `sort_by`. */
module Sorting {
  ghost predicate TotalPreorder<T(!new)>(le: (T, T) -> bool) {
    && (forall x, y :: le(x, y) || le(y, x))
    && (forall x, y, z :: le(x, y) && le(y, z) ==> le(x, z))
  }

  ghost predicate SortedBy<T>(s: seq<T>, le: (T, T) -> bool) {
    forall i, j :: 0 <= i < j < |s| ==> le(s[i], s[j])
  }

  /** `x` goes after every element that is not greater, so equals keep their order. */
  function InsertAfter<T>(s: seq<T>, x: T, le: (T, T) -> bool): (r: seq<T>)
    ensures |r| == |s| + 1
  {
    if s == [] || le(s[|s| - 1], x) then s + [x]
    else InsertAfter(s[..|s| - 1], x, le) + [s[|s| - 1]]
  }

  function Sort<T>(s: seq<T>, le: (T, T) -> bool): (r: seq<T>)
    ensures |r| == |s|
  {
    if s == [] then [] else InsertAfter(Sort(s[..|s| - 1], le), s[|s| - 1], le)
  }

  lemma {:induction false} InsertKeeps<T>(s: seq<T>, x: T, le: (T, T) -> bool)
    ensures multiset(InsertAfter(s, x, le)) == multiset(s) + multiset{x}
  {
    if s != [] && !le(s[|s| - 1], x) {
      InsertKeeps(s[..|s| - 1], x, le);
      assert s == s[..|s| - 1] + [s[|s| - 1]];
    }
  }

  /** Sorting neither adds nor loses nor repeats anything. */
  lemma {:induction false} SortKeeps<T>(s: seq<T>, le: (T, T) -> bool)
    ensures multiset(Sort(s, le)) == multiset(s)
  {
    if s != [] {
      SortKeeps(s[..|s| - 1], le);
      InsertKeeps(Sort(s[..|s| - 1], le), s[|s| - 1], le);
      assert s == s[..|s| - 1] + [s[|s| - 1]];
    }
  }

  lemma {:induction false} InsertSorts<T(!new)>(s: seq<T>, x: T, le: (T, T) -> bool)
    requires TotalPreorder(le) && SortedBy(s, le)
    ensures SortedBy(InsertAfter(s, x, le), le)
  {
    if s != [] && !le(s[|s| - 1], x) {
      var init, last := s[..|s| - 1], s[|s| - 1];
      InsertSorts(init, x, le);
      var r := InsertAfter(init, x, le);
      forall i | 0 <= i < |r| ensures le(r[i], last) {
        InsertKeeps(init, x, le);
        assert r[i] in multiset(r);
        assert r[i] in multiset(init) + multiset{x};
      }
    }
  }

  lemma {:induction false} SortSorts<T(!new)>(s: seq<T>, le: (T, T) -> bool)
    requires TotalPreorder(le)
    ensures SortedBy(Sort(s, le), le)
  {
    if s != [] {
      SortSorts(s[..|s| - 1], le);
      InsertSorts(Sort(s[..|s| - 1], le), s[|s| - 1], le);
    }
  }

  /** Membership is what callers most often need of `SortKeeps`. */
  lemma SortMembers<T>(s: seq<T>, le: (T, T) -> bool)
    ensures forall x :: x in Sort(s, le) <==> x in s
  {
    SortKeeps(s, le);
    forall x ensures x in Sort(s, le) <==> x in s {
      assert x in multiset(Sort(s, le)) <==> x in multiset(s);
    }
  }

  lemma {:induction false} SortSorted<T>(s: seq<T>, le: (T, T) -> bool)
    requires SortedBy(s, le)
    ensures Sort(s, le) == s
  {
    if s != [] {
      SortSorted(s[..|s| - 1], le);
    }
  }

  /** More candidates can only lower what stands at each place. */
  lemma {:induction false} InsertLowers<T(!new)>(s: seq<T>, x: T, le: (T, T) -> bool, i: nat)
    requires TotalPreorder(le) && SortedBy(s, le) && i < |s|
    ensures le(InsertAfter(s, x, le)[i], s[i])
  {
    if !le(s[|s| - 1], x) {
      var init := s[..|s| - 1];
      if i < |s| - 1 {
        InsertLowers(init, x, le, i);
      } else {
        InsertKeeps(init, x, le);
        var r := InsertAfter(init, x, le);
        assert r[i] in multiset(r);
        assert r[i] in multiset(init) + multiset{x};
      }
    }
  }

  lemma {:induction false} AppendLowers<T(!new)>(s: seq<T>, t: seq<T>, le: (T, T) -> bool, i: nat)
    requires TotalPreorder(le) && SortedBy(s, le) && i < |s|
    ensures le(Sort(s + t, le)[i], s[i])
  {
    if t == [] {
      assert s + t == s;
      SortSorted(s, le);
      assert le(s[i], s[i]);
    } else {
      var init, last := t[..|t| - 1], t[|t| - 1];
      AppendLowers(s, init, le, i);
      assert (s + t)[..|s + t| - 1] == s + init;
      SortSorts(s + init, le);
      InsertLowers(Sort(s + init, le), last, le, i);
    }
  }

  ghost predicate StrictlyAscending(s: seq<nat>) {
    forall i, j :: 0 <= i < j < |s| ==> s[i] < s[j]
  }

  function AtMost(): (nat, nat) -> bool {
    (x: nat, y: nat) => x <= y
  }

  /** `dedup`: drop each element equal to the one before it. */
  function Dedup(s: seq<nat>): seq<nat> {
    if |s| <= 1 then s
    else if s[|s| - 1] == s[|s| - 2] then Dedup(s[..|s| - 1])
    else Dedup(s[..|s| - 1]) + [s[|s| - 1]]
  }

  lemma {:induction false} DedupStrict(s: seq<nat>)
    requires SortedBy(s, AtMost())
    ensures StrictlyAscending(Dedup(s))
    ensures forall x: nat :: x in Dedup(s) <==> x in s
    ensures s != [] ==> Dedup(s) != [] && Dedup(s)[|Dedup(s)| - 1] == s[|s| - 1]
  {
    if |s| > 1 {
      var init, last := s[..|s| - 1], s[|s| - 1];
      forall i, j | 0 <= i < j < |init| ensures AtMost()(init[i], init[j]) {
        assert AtMost()(s[i], s[j]);
      }
      DedupStrict(init);
      assert AtMost()(s[|s| - 2], s[|s| - 1]);
      assert forall x: nat :: x in s <==> x in init || x == last;
    }
  }

  /** `sort_unstable` then `dedup` */
  lemma SortDedup(s: seq<nat>)
    ensures StrictlyAscending(Dedup(Sort(s, AtMost())))
    ensures forall x: nat :: x in Dedup(Sort(s, AtMost())) <==> x in s
  {
    SortSorts(s, AtMost());
    SortMembers(s, AtMost());
    DedupStrict(Sort(s, AtMost()));
  }
}
