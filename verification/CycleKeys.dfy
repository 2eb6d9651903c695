/** Canonical keys of token and pool cycles (`src/detector/path_finder.rs`).

    `show` is the text of an address: any injective rendering of fixed width. The hexadecimal
    digits behind a `0x` are one; the checksum in the case of the letters is left open. */
module CycleKeys {
  import opened Common
  import opened GraphModel

  datatype Hop = Hop(from: Address, to: Address, poolId: Address)

  datatype Candidate = Candidate(startToken: Address, score: int, routeCapacity: nat, routeQuality: nat,
                                 cycleKey: string, path: seq<Hop>)

  // ----- rotations and their order

  function Rotate<T>(s: seq<T>, k: nat): (r: seq<T>)
    requires k <= |s|
    ensures |r| == |s|
  {
    s[k..] + s[..k]
  }

  ghost predicate IsRotation<T>(s: seq<T>, t: seq<T>) {
    exists k: nat :: k <= |s| && t == Rotate(s, k)
  }

  ghost predicate StrictTotalOrder<T(!new)>(less: (T, T) -> bool) {
    && (forall x :: !less(x, x))
    && (forall x, y, z :: less(x, y) && less(y, z) ==> less(x, z))
    && (forall x, y :: x == y || less(x, y) || less(y, x))
  }

  /** The order of slices and strings: the first difference decides, a proper prefix comes first. */
  predicate LexLess<T(==)>(s: seq<T>, t: seq<T>, less: (T, T) -> bool) {
    t != [] && (s == [] || less(s[0], t[0]) || (s[0] == t[0] && LexLess(s[1..], t[1..], less)))
  }

  lemma {:induction false} LexIrreflexive<T(!new)>(s: seq<T>, less: (T, T) -> bool)
    requires StrictTotalOrder(less)
    ensures !LexLess(s, s, less)
  {
    if s != [] {
      LexIrreflexive(s[1..], less);
    }
  }

  lemma {:induction false} LexTransitive<T(!new)>(s: seq<T>, t: seq<T>, u: seq<T>, less: (T, T) -> bool)
    requires StrictTotalOrder(less) && LexLess(s, t, less) && LexLess(t, u, less)
    ensures LexLess(s, u, less)
  {
    if s != [] && s[0] == t[0] == u[0] {
      LexTransitive(s[1..], t[1..], u[1..], less);
    }
  }

  lemma {:induction false} LexTotal<T(!new)>(s: seq<T>, t: seq<T>, less: (T, T) -> bool)
    requires StrictTotalOrder(less)
    ensures s == t || LexLess(s, t, less) || LexLess(t, s, less)
  {
    if s != [] && t != [] && s[0] == t[0] {
      LexTotal(s[1..], t[1..], less);
      assert s == [s[0]] + s[1..] && t == [t[0]] + t[1..];
    }
  }

  lemma LexIsOrder<T(!new)>(less: (T, T) -> bool)
    requires StrictTotalOrder(less)
    ensures StrictTotalOrder((s: seq<T>, t: seq<T>) => LexLess(s, t, less))
  {
    var lex := (s: seq<T>, t: seq<T>) => LexLess(s, t, less);
    forall s ensures !lex(s, s) {
      LexIrreflexive(s, less);
    }
    forall s, t, u | lex(s, t) && lex(t, u) ensures lex(s, u) {
      LexTransitive(s, t, u, less);
    }
    forall s, t ensures s == t || lex(s, t) || lex(t, s) {
      LexTotal(s, t, less);
    }
  }

  datatype Ordering = Less | Equal | Greater

  function Compare<T>(x: T, y: T, less: (T, T) -> bool): Ordering {
    if less(x, y) then Less else if less(y, x) then Greater else Equal
  }

  lemma {:induction false} LexCut<T(!new)>(s: seq<T>, t: seq<T>, k: nat, less: (T, T) -> bool)
    requires StrictTotalOrder(less) && k <= |s| && k <= |t| && s[..k] == t[..k]
    ensures LexLess(s, t, less) == LexLess(s[k..], t[k..], less)
  {
    if k > 0 {
      assert s[0] == s[..k][0] == t[..k][0] == t[0];
      assert s[1..][..k - 1] == s[..k][1..] && t[1..][..k - 1] == t[..k][1..];
      LexCut(s[1..], t[1..], k - 1, less);
      assert s[1..][k - 1..] == s[k..] && t[1..][k - 1..] == t[k..];
    }
  }

  lemma WrapAround(i: nat, n: nat)
    requires i < 2 * n
    ensures i % n == if i < n then i else i - n
  {}

  lemma RotateAt<T>(s: seq<T>, k: nat, offset: nat)
    requires k < |s| && offset < |s|
    ensures Rotate(s, k)[offset] == s[(k + offset) % |s|]
  {
    WrapAround(k + offset, |s|);
  }

  /** `compare_cycle_rotation` and `compare_string_rotation` */
  method CompareRotation<T(==, !new)>(s: seq<T>, left: nat, right: nat, less: (T, T) -> bool) returns (r: Ordering)
    requires StrictTotalOrder(less) && left < |s| && right < |s|
    ensures r == Less <==> LexLess(Rotate(s, left), Rotate(s, right), less)
    ensures r == Greater <==> LexLess(Rotate(s, right), Rotate(s, left), less)
  {
    ghost var a, b := Rotate(s, left), Rotate(s, right);
    for offset := 0 to |s|
      invariant a[..offset] == b[..offset]
    {
      var lhs, rhs := s[(left + offset) % |s|], s[(right + offset) % |s|];
      RotateAt(s, left, offset);
      RotateAt(s, right, offset);
      var cmp := Compare(lhs, rhs, less);
      if cmp != Equal {
        LexCut(a, b, offset, less);
        LexCut(b, a, offset, less);
        return cmp;
      }
      assert a[..offset + 1] == a[..offset] + [lhs] && b[..offset + 1] == b[..offset] + [rhs];
    }
    assert a == a[..|s|] == b[..|s|] == b;
    LexIrreflexive(a, less);
    r := Equal;
  }

  /** The first among the first `n` starts whose rotation no other is below. */
  function LeastStart<T(==)>(s: seq<T>, n: nat, less: (T, T) -> bool): (k: nat)
    requires 0 < n <= |s|
    ensures k < n
  {
    if n == 1 then 0
    else
      var best := LeastStart(s, n - 1, less);
      if LexLess(Rotate(s, n - 1), Rotate(s, best), less) then n - 1 else best
  }

  /** The least rotation; the empty cycle is its own. */
  function Canonical<T(==)>(s: seq<T>, less: (T, T) -> bool): seq<T> {
    if s == [] then [] else Rotate(s, LeastStart(s, |s|, less))
  }

  /** The `min_by` over all starts, then the rotation from there. */
  method LeastRotation<T(==, !new)>(s: seq<T>, less: (T, T) -> bool) returns (r: seq<T>)
    requires StrictTotalOrder(less)
    ensures r == Canonical(s, less)
  {
    if s == [] {
      return [];
    }
    var best := 0;
    for start := 1 to |s|
      invariant best == LeastStart(s, start, less)
    {
      var cmp := CompareRotation(s, start, best, less);
      if cmp == Less {
        best := start;
      }
    }
    r := [];
    for offset := 0 to |s|
      invariant r == Rotate(s, best)[..offset]
    {
      RotateAt(s, best, offset);
      r := r + [s[(best + offset) % |s|]];
    }
  }

  lemma {:induction false} LeastStartIsLeast<T(!new)>(s: seq<T>, n: nat, k: nat, less: (T, T) -> bool)
    requires StrictTotalOrder(less) && k < n <= |s|
    ensures !LexLess(Rotate(s, k), Rotate(s, LeastStart(s, n, less)), less)
  {
    var best := LeastStart(s, n, less);
    if k == n - 1 {
      LexIrreflexive(Rotate(s, k), less);
    } else {
      LeastStartIsLeast(s, n - 1, k, less);
      if best == n - 1 && LexLess(Rotate(s, k), Rotate(s, best), less) {
        LexTransitive(Rotate(s, k), Rotate(s, best), Rotate(s, LeastStart(s, n - 1, less)), less);
      }
    }
  }

  lemma RotateTwice<T>(s: seq<T>, i: nat, j: nat)
    requires i <= |s| && j <= |s|
    ensures Rotate(Rotate(s, i), j) == if i + j <= |s| then Rotate(s, i + j) else Rotate(s, i + j - |s|)
  {}

  lemma RotationBack<T>(s: seq<T>, t: seq<T>)
    requires IsRotation(s, t)
    ensures IsRotation(t, s)
  {
    var k: nat :| k <= |s| && t == Rotate(s, k);
    RotateTwice(s, k, |s| - k);
    assert s == Rotate(t, |s| - k);
  }

  lemma RotationOn<T>(s: seq<T>, t: seq<T>, u: seq<T>)
    requires IsRotation(s, t) && IsRotation(t, u)
    ensures IsRotation(s, u)
  {
    var i: nat :| i <= |s| && t == Rotate(s, i);
    var j: nat :| j <= |t| && u == Rotate(t, j);
    RotateTwice(s, i, j);
  }

  /** The canonical form is a rotation that no rotation is below. */
  lemma CanonicalIsLeast<T(!new)>(s: seq<T>, u: seq<T>, less: (T, T) -> bool)
    requires StrictTotalOrder(less)
    ensures IsRotation(s, Canonical(s, less))
    ensures IsRotation(s, u) ==> !LexLess(u, Canonical(s, less), less)
  {
    if s == [] {
      assert Canonical(s, less) == Rotate(s, 0);
    } else if IsRotation(s, u) {
      var k: nat :| k <= |s| && u == Rotate(s, k);
      var start := if k == |s| then 0 else k;
      assert u == Rotate(s, start);
      LeastStartIsLeast(s, |s|, start, less);
    }
  }

  /** Equal canonical forms mean one cycle, and the other way round. */
  lemma CanonicalDecidesRotation<T(!new)>(s: seq<T>, t: seq<T>, less: (T, T) -> bool)
    requires StrictTotalOrder(less)
    ensures Canonical(s, less) == Canonical(t, less) <==> IsRotation(s, t)
  {
    var cs, ct := Canonical(s, less), Canonical(t, less);
    CanonicalIsLeast(s, ct, less);
    CanonicalIsLeast(t, cs, less);
    if cs == ct {
      RotationBack(t, ct);
      RotationOn(s, ct, t);
    }
    if IsRotation(s, t) {
      RotationOn(s, t, ct);
      RotationBack(s, t);
      RotationOn(t, s, cs);
      LexTotal(cs, ct, less);
    }
  }

  // ----- text

  type Show = Address -> string

  /** Rendering an address loses nothing and always takes `width` characters. */
  ghost predicate FixedWidth(show: Show, width: nat) {
    && (forall a :: |show(a)| == width)
    && (forall a, b :: show(a) == show(b) ==> a == b)
  }

  const HEX_DIGITS: string := "0123456789abcdef"

  /** The last `n` hexadecimal digits. */
  function Digits(a: nat, n: nat): (s: string)
    ensures |s| == n
  {
    if n == 0 then "" else Digits(a / 16, n - 1) + [HEX_DIGITS[a % 16]]
  }

  function HexShow(): Show {
    (a: Address) => "0x" + Digits(a, 40)
  }

  /** "0x" and forty digits */
  const ADDRESS_WIDTH: nat := 42

  lemma {:induction false} DigitsInjective(a: nat, b: nat, n: nat)
    requires a < Pow(16, n) && b < Pow(16, n) && Digits(a, n) == Digits(b, n)
    ensures a == b
  {
    if n > 0 {
      var s, t := Digits(a, n), Digits(b, n);
      assert s[..n - 1] == Digits(a / 16, n - 1) && t[..n - 1] == Digits(b / 16, n - 1);
      assert s[n - 1] == HEX_DIGITS[a % 16] && t[n - 1] == HEX_DIGITS[b % 16];
      DigitsDiffer(a % 16, b % 16);
      DigitsInjective(a / 16, b / 16, n - 1);
    }
  }

  lemma DigitsDiffer(i: nat, j: nat)
    requires i < 16 && j < 16
    ensures HEX_DIGITS[i] == HEX_DIGITS[j] <==> i == j
  {}

  lemma SixteenTo40()
    ensures Pow(16, 40) == ADDRESS_LIMIT
  {
    assert Pow(16, 5) == 0x10_0000;
    PowAdd(16, 5, 5);
    PowAdd(16, 10, 10);
    PowAdd(16, 20, 20);
  }

  /** Such a rendering exists: hexadecimal digits tell all addresses apart. */
  lemma HexIsFixedWidth()
    ensures FixedWidth(HexShow(), ADDRESS_WIDTH)
  {
    SixteenTo40();
    forall a: Address, b: Address | HexShow()(a) == HexShow()(b) ensures a == b {
      assert HexShow()(a)[2..] == Digits(a, 40) && HexShow()(b)[2..] == Digits(b, 40);
      DigitsInjective(a, b, 40);
    }
  }

  function Join(parts: seq<string>, separator: char): string {
    if parts == [] then ""
    else if |parts| == 1 then parts[0]
    else Join(parts[..|parts| - 1], separator) + [separator] + parts[|parts| - 1]
  }

  ghost predicate AllWide(parts: seq<string>, width: nat) {
    forall i :: 0 <= i < |parts| ==> |parts[i]| == width
  }

  lemma {:induction false} JoinLength(parts: seq<string>, separator: char, width: nat)
    requires AllWide(parts, width) && parts != []
    ensures |Join(parts, separator)| == |parts| * (width + 1) - 1
  {
    if |parts| > 1 {
      JoinLength(parts[..|parts| - 1], separator, width);
      assert |parts| * (width + 1) == (|parts| - 1) * (width + 1) + (width + 1);
    }
  }

  lemma {:induction false} JoinSameCount(s: seq<string>, t: seq<string>, separator: char, width: nat)
    requires AllWide(s, width) && AllWide(t, width) && |s| == |t|
    requires Join(s, separator) == Join(t, separator)
    ensures s == t
  {
    if |s| > 1 {
      var si, ti := s[..|s| - 1], t[..|t| - 1];
      JoinLength(si, separator, width);
      JoinLength(ti, separator, width);
      var n := |Join(si, separator)|;
      assert Join(s, separator)[..n] == Join(si, separator) && Join(t, separator)[..n] == Join(ti, separator);
      assert Join(s, separator)[n + 1..] == s[|s| - 1] && Join(t, separator)[n + 1..] == t[|t| - 1];
      JoinSameCount(si, ti, separator, width);
      assert s == si + [s[|s| - 1]] && t == ti + [t[|t| - 1]];
    }
  }

  lemma ProductTells(m: nat, n: nat, w: nat)
    requires w > 0
    ensures m * w == n * w <==> m == n
  {
    assert m * w - n * w == (m - n) * w;
    assert m > n ==> (m - n) * w > 0;
    assert m < n ==> (n - m) * w > 0;
  }

  /** Joined texts of parts of one width tell the parts apart. */
  lemma JoinInjective(s: seq<string>, t: seq<string>, separator: char, width: nat)
    requires AllWide(s, width) && AllWide(t, width) && s != [] && t != []
    ensures Join(s, separator) == Join(t, separator) <==> s == t
  {
    if Join(s, separator) == Join(t, separator) {
      JoinLength(s, separator, width);
      JoinLength(t, separator, width);
      ProductTells(|s|, |t|, width + 1);
      JoinSameCount(s, t, separator, width);
    }
  }

  // ----- the keys

  function HopEntry(hop: Hop, show: Show): string {
    show(hop.from) + ">" + show(hop.to) + ":" + show(hop.poolId)
  }

  function HopEntries(path: seq<Hop>, show: Show): seq<string> {
    seq(|path|, i requires 0 <= i < |path| => HopEntry(path[i], show))
  }

  function ShowAll(tokens: seq<Address>, show: Show): seq<string> {
    seq(|tokens|, i requires 0 <= i < |tokens| => show(tokens[i]))
  }

  /** The tokens of a cycle, each once: the start, then every target but the last. */
  function CycleTokens(c: Candidate): (tokens: seq<Address>)
    ensures |tokens| == if c.path == [] then 1 else |c.path|
  {
    [c.startToken] + seq(if c.path == [] then 0 else |c.path| - 1, i requires 0 <= i < |c.path| => c.path[i].to)
  }

  function AddressLess(): (Address, Address) -> bool {
    (a: Address, b: Address) => a < b
  }

  function CharLess(): (char, char) -> bool {
    (a: char, b: char) => a < b
  }

  function TextLess(): (string, string) -> bool {
    (s: string, t: string) => LexLess(s, t, CharLess())
  }

  lemma OrdersAreStrict()
    ensures StrictTotalOrder(AddressLess()) && StrictTotalOrder(TextLess())
  {
    assert StrictTotalOrder(CharLess());
    LexIsOrder(CharLess());
  }

  /** `canonical_token_cycle_key`: the least rotation, closed by its first token. */
  function TokenCycleKey(c: Candidate, show: Show): string {
    var cycle := Canonical(CycleTokens(c), AddressLess());
    Join(ShowAll(cycle + cycle[..1], show), '>')
  }

  /** `canonical_pool_cycle_key` */
  function PoolCycleKey(c: Candidate, show: Show): string {
    if c.path == [] then show(c.startToken)
    else Join(Canonical(HopEntries(c.path, show), TextLess()), '|')
  }

  /** `canonical_anchor_pool_cycle_key` */
  function AnchorPoolKey(c: Candidate, show: Show): string {
    show(c.startToken) + ":" + PoolCycleKey(c, show)
  }

  /** `candidate_token_cycle_key`: the tokens in route order, not rotated. */
  function TokenPathKey(c: Candidate, show: Show): string {
    Join(ShowAll(PathTokens(c), show), '>')
  }

  function PathTokens(c: Candidate): seq<Address> {
    [c.startToken] + seq(|c.path|, i requires 0 <= i < |c.path| => c.path[i].to)
  }

  lemma ShowAllInjective(s: seq<Address>, t: seq<Address>, show: Show, width: nat)
    requires FixedWidth(show, width)
    ensures ShowAll(s, show) == ShowAll(t, show) <==> s == t
  {
    if ShowAll(s, show) == ShowAll(t, show) {
      assert |s| == |ShowAll(s, show)| == |t|;
      forall i | 0 <= i < |s| ensures s[i] == t[i] {
        assert ShowAll(s, show)[i] == ShowAll(t, show)[i];
      }
    }
  }

  lemma EntryParts(h: Hop, show: Show, width: nat)
    requires FixedWidth(show, width)
    ensures var a := HopEntry(h, show);
      && |a| == 3 * width + 2 && a[..width] == show(h.from)
      && a[width + 1..2 * width + 1] == show(h.to) && a[2 * width + 2..] == show(h.poolId)
  {
    assert |show(h.from)| == width && |show(h.to)| == width && |show(h.poolId)| == width;
    hide FixedWidth;
  }

  lemma EntryInjective(h: Hop, k: Hop, show: Show, width: nat)
    requires FixedWidth(show, width)
    ensures HopEntry(h, show) == HopEntry(k, show) <==> h == k
    ensures |HopEntry(h, show)| == 3 * width + 2
  {
    EntryParts(h, show, width);
    EntryParts(k, show, width);
    hide HopEntry;
  }

  lemma EntriesInjective(p: seq<Hop>, q: seq<Hop>, show: Show, width: nat)
    requires FixedWidth(show, width)
    ensures HopEntries(p, show) == HopEntries(q, show) <==> p == q
    ensures AllWide(HopEntries(p, show), 3 * width + 2)
  {
    forall i | 0 <= i < |p| ensures |HopEntries(p, show)[i]| == 3 * width + 2 {
      EntryInjective(p[i], p[i], show, width);
    }
    if HopEntries(p, show) == HopEntries(q, show) {
      assert |p| == |HopEntries(p, show)| == |q|;
      forall i | 0 <= i < |p| ensures p[i] == q[i] {
        assert HopEntries(p, show)[i] == HopEntries(q, show)[i];
        EntryInjective(p[i], q[i], show, width);
      }
    }
  }

  /** Rendering hop by hop commutes with rotating. */
  lemma EntriesRotate(p: seq<Hop>, q: seq<Hop>, show: Show, width: nat)
    requires FixedWidth(show, width)
    ensures IsRotation(HopEntries(p, show), HopEntries(q, show)) <==> IsRotation(p, q)
  {
    forall k: nat | k <= |p| ensures HopEntries(Rotate(p, k), show) == Rotate(HopEntries(p, show), k) {}
    if IsRotation(HopEntries(p, show), HopEntries(q, show)) {
      var k: nat :| k <= |p| && HopEntries(q, show) == Rotate(HopEntries(p, show), k);
      EntriesInjective(Rotate(p, k), q, show, width);
      assert q == Rotate(p, k);
    }
    if IsRotation(p, q) {
      var k: nat :| k <= |p| && q == Rotate(p, k);
      assert HopEntries(q, show) == Rotate(HopEntries(p, show), k);
    }
  }

  /** Two candidates have one token key exactly if their token cycles are rotations of one another. */
  lemma TokenKeyDecidesRotation(c: Candidate, d: Candidate, show: Show, width: nat)
    requires FixedWidth(show, width)
    ensures TokenCycleKey(c, show) == TokenCycleKey(d, show) <==> IsRotation(CycleTokens(c), CycleTokens(d))
  {
    OrdersAreStrict();
    var x, y := Canonical(CycleTokens(c), AddressLess()), Canonical(CycleTokens(d), AddressLess());
    CanonicalDecidesRotation(CycleTokens(c), CycleTokens(d), AddressLess());
    ClosedCycle(x, y);
    ShowAllInjective(x + x[..1], y + y[..1], show, width);
    JoinInjective(ShowAll(x + x[..1], show), ShowAll(y + y[..1], show), '>', width);
  }

  lemma ClosedCycle(x: seq<Address>, y: seq<Address>)
    requires x != [] && y != []
    ensures x + x[..1] == y + y[..1] <==> x == y
  {
    if x + x[..1] == y + y[..1] {
      assert |x + x[..1]| == |y + y[..1]|;
      assert x == (x + x[..1])[..|x|] == (y + y[..1])[..|y|] == y;
    }
  }

  lemma CanonicalKeepsWidth(s: seq<string>, width: nat)
    requires AllWide(s, width)
    ensures AllWide(Canonical(s, TextLess()), width) && |Canonical(s, TextLess())| == |s|
  {}

  /** Two candidates, one with hops, have one pool key exactly if their hop cycles are rotations of
      one another. */
  lemma PoolKeyDecidesRotation(c: Candidate, d: Candidate, show: Show, width: nat)
    requires FixedWidth(show, width) && c.path != []
    ensures PoolCycleKey(c, show) == PoolCycleKey(d, show) <==> IsRotation(c.path, d.path)
  {
    var p, q := HopEntries(c.path, show), HopEntries(d.path, show);
    var x, y := Canonical(p, TextLess()), Canonical(q, TextLess());
    OrdersAreStrict();
    EntriesInjective(c.path, d.path, show, width);
    EntriesInjective(d.path, c.path, show, width);
    CanonicalKeepsWidth(p, 3 * width + 2);
    CanonicalKeepsWidth(q, 3 * width + 2);
    EntriesRotate(c.path, d.path, show, width);
    if d.path != [] {
      CanonicalDecidesRotation(p, q, TextLess());
      JoinInjective(x, y, '|', 3 * width + 2);
    } else {
      JoinLength(x, '|', 3 * width + 2);
      LongerThanOne(|x|, width);
    }
  }

  lemma LongerThanOne(n: nat, width: nat)
    requires n > 0
    ensures n * (3 * width + 3) - 1 > width
  {
    assert n * (3 * width + 3) == (n - 1) * (3 * width + 3) + (3 * width + 3);
  }

  /** The selection key adds the anchor. */
  lemma AnchorKeyDecidesRotation(c: Candidate, d: Candidate, show: Show, width: nat)
    requires FixedWidth(show, width) && c.path != []
    ensures AnchorPoolKey(c, show) == AnchorPoolKey(d, show) <==>
            c.startToken == d.startToken && IsRotation(c.path, d.path)
  {
    hide PoolCycleKey, IsRotation;
    PoolKeyDecidesRotation(c, d, show, width);
    assert |show(c.startToken)| == |show(d.startToken)| == width;
    var a, b := AnchorPoolKey(c, show), AnchorPoolKey(d, show);
    if a == b {
      assert a[..width] == show(c.startToken) && b[..width] == show(d.startToken);
      assert a[width + 1..] == PoolCycleKey(c, show) && b[width + 1..] == PoolCycleKey(d, show);
    }
  }

  lemma SamePathTokens(c: Candidate, d: Candidate)
    ensures PathTokens(c) == PathTokens(d) <==>
      && c.startToken == d.startToken && |c.path| == |d.path|
      && forall i :: 0 <= i < |c.path| ==> c.path[i].to == d.path[i].to
  {
    var a, b := PathTokens(c), PathTokens(d);
    assert |a| == |c.path| + 1 && |b| == |d.path| + 1 && a[0] == c.startToken && b[0] == d.startToken;
    if a == b {
      forall i | 0 <= i < |c.path| ensures c.path[i].to == d.path[i].to {
        assert a[i + 1] == b[i + 1];
      }
    }
  }

  /** Without hops the pool key is the start token alone. */
  lemma EmptyPathKey(c: Candidate, d: Candidate, show: Show, width: nat)
    requires FixedWidth(show, width) && c.path == [] && d.path == []
    ensures PoolCycleKey(c, show) == PoolCycleKey(d, show) <==> c.startToken == d.startToken
  {}

  /** The key of a token path tells the tokens and their order. */
  lemma TokenPathKeyInjective(c: Candidate, d: Candidate, show: Show, width: nat)
    requires FixedWidth(show, width)
    ensures TokenPathKey(c, show) == TokenPathKey(d, show) <==> PathTokens(c) == PathTokens(d)
    ensures TokenPathKey(c, show) == TokenPathKey(d, show) <==>
      && c.startToken == d.startToken && |c.path| == |d.path|
      && forall i :: 0 <= i < |c.path| ==> c.path[i].to == d.path[i].to
  {
    SamePathTokens(c, d);
    ShowAllInjective(PathTokens(c), PathTokens(d), show, width);
    JoinInjective(ShowAll(PathTokens(c), show), ShowAll(PathTokens(d), show), '>', width);
  }

  /** The hops join up from the start token back to it. */
  ghost predicate ClosedPath(c: Candidate) {
    && c.path != [] && c.path[0].from == c.startToken == c.path[|c.path| - 1].to
    && forall i :: 0 <= i < |c.path| - 1 ==> c.path[i].to == c.path[i + 1].from
  }

  function Sources(path: seq<Hop>): seq<Address> {
    seq(|path|, i requires 0 <= i < |path| => path[i].from)
  }

  lemma ClosedTokens(c: Candidate)
    requires ClosedPath(c)
    ensures CycleTokens(c) == Sources(c.path)
  {
    forall i | 0 <= i < |c.path| ensures CycleTokens(c)[i] == c.path[i].from {
      if i > 0 {
        assert c.path[i - 1].to == c.path[i - 1 + 1].from;
      }
    }
  }

  lemma SourcesRotate(path: seq<Hop>, k: nat)
    requires k <= |path|
    ensures Sources(Rotate(path, k)) == Rotate(Sources(path), k)
  {}

  /** One hop cycle is one token cycle. */
  lemma HopCycleGivesTokenCycle(c: Candidate, d: Candidate)
    requires ClosedPath(c) && ClosedPath(d) && IsRotation(c.path, d.path)
    ensures IsRotation(CycleTokens(c), CycleTokens(d))
  {
    ClosedTokens(c);
    ClosedTokens(d);
    var k: nat :| k <= |c.path| && d.path == Rotate(c.path, k);
    SourcesRotate(c.path, k);
    hide ClosedPath, CycleTokens, Rotate;
    assert |Sources(c.path)| == |c.path|;
    assert Sources(d.path) == Rotate(Sources(c.path), k);
  }
}
