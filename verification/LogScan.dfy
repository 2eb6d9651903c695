/** The chunked log scans (`src/discovery/event_stream.rs`, `src/discovery/factory_scanner.rs`).

    The node is an arbitrary function of the attempt and the requested range: any attempt may
    fail, with an error that asks for smaller ranges, one that is transient, both or neither.
    Waiting between attempts is left out. Block numbers are 64-bit. */
module LogScan {
  import opened Common

  datatype Reply<T> = Logs(logs: seq<T>) | Failure(tooLarge: bool, transient: bool)

  type Node<!T> = (nat, nat, nat) -> Reply<T>

  /** One successful read of the blocks `first..last`. */
  datatype Read<T> = Read(attempt: nat, first: nat, last: nat, logs: seq<T>)

  // ----- what a scan must have read

  /** The reads cover `start..next` without its end, in ascending order, no block twice. */
  ghost predicate Covers<T>(done: seq<Read<T>>, start: nat, next: nat) {
    if done == [] then next == start
    else
      var last := done[|done| - 1];
      last.first <= last.last && last.last + 1 == next && Covers(done[..|done| - 1], start, last.first)
  }

  /** Every read was answered by the node and spans at most `limit` blocks. */
  ghost predicate Answered<T>(node: Node<T>, done: seq<Read<T>>, limit: nat) {
    forall i :: 0 <= i < |done| ==>
      && node(done[i].attempt, done[i].first, done[i].last) == Logs(done[i].logs)
      && done[i].last - done[i].first < limit
  }

  /** The reads are answers to different attempts among the first `attempts`, in the order they were made. */
  ghost predicate InOrder<T>(done: seq<Read<T>>, attempts: nat) {
    && (forall i :: 0 <= i < |done| ==> done[i].attempt <= attempts)
    && (forall i, j :: 0 <= i < j < |done| ==> done[i].attempt < done[j].attempt)
  }

  function Flatten<T>(done: seq<Read<T>>): seq<T> {
    if done == [] then [] else Flatten(done[..|done| - 1]) + done[|done| - 1].logs
  }

  /** All logs of the blocks `start..next` without its end, in block order. */
  function LogsBetween<T>(logsOf: nat -> seq<T>, start: nat, next: nat): seq<T>
    decreases next - start
  {
    if next <= start then [] else LogsBetween(logsOf, start, next - 1) + logsOf(next - 1)
  }

  /** A node that, whenever it answers, answers with the logs of the blocks asked for. */
  ghost predicate Honest<T(!new)>(node: Node<T>, logsOf: nat -> seq<T>) {
    forall a: nat, s: nat, e: nat :: node(a, s, e).Logs? ==> node(a, s, e).logs == LogsBetween(logsOf, s, e + 1)
  }

  lemma {:induction false} LogsBetweenSplits<T>(logsOf: nat -> seq<T>, a: nat, b: nat, c: nat)
    requires a <= b <= c
    ensures LogsBetween(logsOf, a, c) == LogsBetween(logsOf, a, b) + LogsBetween(logsOf, b, c)
    decreases c - b
  {
    if b < c {
      LogsBetweenSplits(logsOf, a, b, c - 1);
    }
  }

  lemma {:induction false} LogsAreOfBlocks<T>(logsOf: nat -> seq<T>, start: nat, next: nat)
    ensures start < next && next == start + 1 ==> LogsBetween(logsOf, start, next) == logsOf(start)
    ensures forall log :: log in LogsBetween(logsOf, start, next) <==> exists b :: start <= b < next && log in logsOf(b)
    decreases next - start
  {
    if next > start {
      LogsAreOfBlocks(logsOf, start, next - 1);
    }
  }

  lemma {:induction false} CoverIsForward<T>(done: seq<Read<T>>, start: nat, next: nat)
    requires Covers(done, start, next)
    ensures start <= next
  {
    if done != [] {
      CoverIsForward(done[..|done| - 1], start, done[|done| - 1].first);
    }
  }

  /** With an honest node a covering scan collects exactly the logs of the range, each block
      once and in order, whatever failed on the way and however the chunks were cut. */
  lemma {:induction false} CoveringScanIsComplete<T(!new)>(node: Node<T>, logsOf: nat -> seq<T>, done: seq<Read<T>>,
                                                           start: nat, next: nat, limit: nat)
    requires Honest(node, logsOf) && Covers(done, start, next) && Answered(node, done, limit)
    ensures Flatten(done) == LogsBetween(logsOf, start, next)
  {
    if done != [] {
      var n := |done| - 1;
      CoveringScanIsComplete(node, logsOf, done[..n], start, done[n].first, limit);
      CoverIsForward(done[..n], start, done[n].first);
      LogsBetweenSplits(logsOf, start, done[n].first, next);
      assert node(done[n].attempt, done[n].first, done[n].last) == Logs(done[n].logs);
    }
  }

  /** Every block of the range lies in exactly one read. */
  lemma {:induction false} EachBlockOnce<T>(done: seq<Read<T>>, start: nat, next: nat, block: nat)
    requires Covers(done, start, next)
    ensures start <= block < next ==> exists i :: 0 <= i < |done| && done[i].first <= block <= done[i].last
    ensures forall i :: 0 <= i < |done| && done[i].first <= block <= done[i].last ==> start <= block < next
    ensures forall i, j :: 0 <= i < j < |done| ==> !(done[i].first <= block <= done[i].last && done[j].first <= block <= done[j].last)
  {
    if done != [] {
      var n := |done| - 1;
      var init := done[..n];
      EachBlockOnce(init, start, done[n].first, block);
      CoverIsForward(init, start, done[n].first);
      if start <= block < done[n].first {
        var i :| 0 <= i < |init| && init[i].first <= block <= init[i].last;
        assert done[i] == init[i];
      }
      forall i, j | 0 <= i < j < |done|
        ensures !(done[i].first <= block <= done[i].last && done[j].first <= block <= done[j].last)
      {
        assert init[i] == done[i];
        if j < n {
          assert init[j] == done[j];
        }
      }
    }
  }

  /** The logs collected are those of the whole range, if the node is honest. */
  ghost predicate HoldsRange<T(!new)>(node: Node<T>, logs: seq<T>, fromBlock: nat, toBlock: nat) {
    forall logsOf: nat -> seq<T> :: Honest(node, logsOf) ==> logs == LogsBetween(logsOf, fromBlock, toBlock + 1)
  }

  // ----- what a scan must have tried

  /** A chunk size: at least one block. */
  type Size = n: nat | n > 0 witness 1

  /** `start.saturating_add(chunk - 1).min(to)` */
  function ChunkEnd(start: nat, chunk: Size, toBlock: nat): (end: nat)
    ensures start <= toBlock <= U64_MAX ==>
      start <= end <= toBlock && end - start < chunk && (end == toBlock || end - start + 1 == chunk)
  {
    Min(Min(start + (chunk - 1), U64_MAX), toBlock)
  }

  /** Which of the three loops it is, with its limits. */
  datatype Policy =
    | Topic(minChunk: Size, maxRetries: nat)
    | Factory(minChunk: Size, baseChunk: Size, maxRetries: nat)
    | Address(minChunk: Size, maxRetries: nat)
  {
    /** The chunk size after an error, nothing when the loop gives up. Topic logs: an error that asks for
        smaller ranges shrinks down to one block whatever the retries, a transient one retries with half
        the size down to the minimum. Factory logs: any error retries while the chunk can shrink. Address
        logs: both kinds of error use up a retry. */
    function Shrink(tooLarge: bool, transient: bool, chunk: Size, retries: nat): Option<Size> {
      match this
      case Topic(_, _) =>
        if tooLarge && chunk > 1 then Some(Max(chunk / 2, 1))
        else if retries < maxRetries && transient then Some(Halved(chunk))
        else None
      case Factory(_, _, _) =>
        if retries < maxRetries && (tooLarge || chunk > minChunk) then Some(Halved(chunk)) else None
      case Address(_, _) =>
        if retries >= maxRetries then None
        else if tooLarge then Some(Max(chunk / 2, 1))
        else if transient then Some(Halved(chunk))
        else None
    }

    function Halved(chunk: Size): Size {
      if chunk > minChunk then Max(chunk / 2, minChunk) else chunk
    }

    /** The chunk size after an answer: that of factory logs doubles towards its first size. */
    function Grow(chunk: Size): Size {
      if Factory? && chunk < baseChunk then Min(Min(chunk * 2, U64_MAX), baseChunk) else chunk
    }
  }

  /** A loop goes on exactly while it has reason to, and then with half the size, but never below its
      floor: one block for topic and address logs that are too large, the configured minimum otherwise. */
  lemma ShrinkHalves(policy: Policy, tooLarge: bool, transient: bool, chunk: Size, retries: nat)
    ensures policy.Shrink(tooLarge, transient, chunk, retries).Some? <==>
      || (policy.Topic? && ((tooLarge && chunk > 1) || (transient && retries < policy.maxRetries)))
      || (policy.Factory? && retries < policy.maxRetries && (tooLarge || chunk > policy.minChunk))
      || (policy.Address? && retries < policy.maxRetries && (tooLarge || transient))
    ensures policy.Shrink(tooLarge, transient, chunk, retries).Some? ==>
      var next := policy.Shrink(tooLarge, transient, chunk, retries).value;
      var floor := if !policy.Factory? && tooLarge && chunk > 1 then 1 else policy.minChunk;
      && next <= chunk <= 2 * next + 1
      && (chunk > floor ==> next >= floor && (2 * next <= chunk || next == floor))
      && (chunk <= floor ==> next == chunk)
  {}

  /** After an answer factory logs double their chunk up to the first size; the others keep theirs. */
  lemma GrowDoubles(policy: Policy, chunk: Size)
    requires policy.Factory? ==> chunk <= policy.baseChunk <= U64_MAX
    ensures !policy.Factory? ==> policy.Grow(chunk) == chunk
    ensures policy.Factory? ==> chunk <= policy.Grow(chunk) <= policy.baseChunk
    ensures policy.Factory? ==> policy.Grow(chunk) == 2 * chunk || policy.Grow(chunk) == policy.baseChunk <= 2 * chunk
  {}

  /** One attempt: the first block not yet read, the chunk size, the attempts already failed for this block. */
  datatype Attempt = Attempt(start: nat, chunk: Size, retries: nat)

  function Ask<T>(node: Node<T>, k: nat, a: Attempt, toBlock: nat): Reply<T> {
    node(k, a.start, ChunkEnd(a.start, a.chunk, toBlock))
  }

  /** What follows attempt number `k`: the next range after an answer, the same first block after a
      failure, nothing when the loop gives up. */
  function Next<T>(node: Node<T>, policy: Policy, k: nat, a: Attempt, toBlock: nat): Option<Attempt> {
    match Ask(node, k, a, toBlock)
    case Logs(_) => Some(Attempt(ChunkEnd(a.start, a.chunk, toBlock) + 1, policy.Grow(a.chunk), 0))
    case Failure(tooLarge, transient) =>
      match policy.Shrink(tooLarge, transient, a.chunk, a.retries)
      case None => None
      case Some(chunk) => Some(Attempt(a.start, chunk, a.retries + 1))
  }

  /** The attempt that follows `k` attempts. */
  function Upcoming<T>(node: Node<T>, policy: Policy, first: Attempt, toBlock: nat, k: nat): Option<Attempt> {
    if k == 0 then Some(first)
    else match Upcoming(node, policy, first, toBlock, k - 1)
      case None => None
      case Some(a) => Next(node, policy, k, a, toBlock)
  }

  /** Every read is the range its attempt had to ask for. */
  ghost predicate AsPlanned<T>(node: Node<T>, policy: Policy, first: Attempt, toBlock: nat, done: seq<Read<T>>) {
    forall i :: 0 <= i < |done| ==>
      && done[i].attempt > 0
      && var a := Upcoming(node, policy, first, toBlock, done[i].attempt - 1);
         a.Some? && done[i].first == a.value.start && done[i].last == ChunkEnd(a.value.start, a.value.chunk, toBlock)
  }

  /** The last attempt that was answered, or zero. */
  function LastRead<T>(done: seq<Read<T>>): nat {
    if done == [] then 0 else done[|done| - 1].attempt
  }

  /** Attempt number `k`, the last one, asked for the first block not yet read. It failed for as many
      times as there were attempts since the last read, and the policy gives up there. */
  ghost predicate GaveUp<T>(node: Node<T>, policy: Policy, done: seq<Read<T>>, k: nat, first: Attempt, toBlock: nat) {
    && k > 0
    && var a := Upcoming(node, policy, first, toBlock, k - 1);
       && a.Some? && a.value.start <= toBlock && Covers(done, first.start, a.value.start)
       && LastRead(done) + a.value.retries + 1 == k
       && match Ask(node, k, a.value, toBlock)
          case Logs(_) => false
          case Failure(tooLarge, transient) => policy.Shrink(tooLarge, transient, a.value.chunk, a.value.retries).None?
  }

  /** A scan result: the logs of a cover of the whole range, or the error of the attempt after which
      the policy gives up. Every attempt asked for the range the policy prescribes. */
  ghost predicate ScanResult<T>(node: Node<T>, policy: Policy, r: Result<seq<T>>, done: seq<Read<T>>, attempts: nat,
                                fromBlock: nat, toBlock: nat, limit: Size)
  {
    var first := Attempt(fromBlock, limit, 0);
    && Answered(node, done, limit) && InOrder(done, attempts) && AsPlanned(node, policy, first, toBlock, done)
    && match r
       case Ok(logs) =>
         && (if fromBlock <= toBlock then Covers(done, fromBlock, toBlock + 1) else done == [])
         && logs == Flatten(done) && LastRead(done) == attempts
       case Err => GaveUp(node, policy, done, attempts, first, toBlock)
  }

  /** Where a loop stands between two attempts. */
  ghost predicate Scanning<T>(node: Node<T>, policy: Policy, done: seq<Read<T>>, attempts: nat, first: Attempt,
                              toBlock: nat, now: Attempt)
  {
    && InOrder(done, attempts) && AsPlanned(node, policy, first, toBlock, done)
    && Upcoming(node, policy, first, toBlock, attempts) == Some(now)
    && Covers(done, first.start, now.start) && Answered(node, done, first.chunk)
    && LastRead(done) + now.retries == attempts
  }

  lemma ScanStarts<T>(node: Node<T>, policy: Policy, first: Attempt, toBlock: nat)
    requires first.retries == 0
    ensures Scanning<T>(node, policy, [], 0, first, toBlock, first) && Flatten<T>([]) == []
  {}

  lemma PushRead<T>(node: Node<T>, policy: Policy, done: seq<Read<T>>, read: Read<T>, k: nat, first: Attempt, toBlock: nat,
                    now: Attempt)
    requires Scanning(node, policy, done, k, first, toBlock, now)
    requires now.start <= toBlock <= U64_MAX && now.chunk <= first.chunk
    requires Ask(node, k + 1, now, toBlock) == Logs(read.logs)
    requires read.attempt == k + 1 && read.first == now.start && read.last == ChunkEnd(now.start, now.chunk, toBlock)
    ensures Scanning(node, policy, done + [read], k + 1, first, toBlock, Attempt(read.last + 1, policy.Grow(now.chunk), 0))
    ensures Flatten(done + [read]) == Flatten(done) + read.logs
  {
    hide Covers, Flatten, Upcoming, Answered, InOrder, AsPlanned, ChunkEnd;
    ReadCovers(done, read, first.start);
    ReadFollows(node, done, read, first.chunk, k);
    ReadAsPlanned(node, policy, done, read, k, first, toBlock, now);
    UpcomingAfter(node, policy, first, toBlock, k, now);
  }

  lemma ReadCovers<T>(done: seq<Read<T>>, read: Read<T>, start: nat)
    requires Covers(done, start, read.first) && read.first <= read.last
    ensures Covers(done + [read], start, read.last + 1) && Flatten(done + [read]) == Flatten(done) + read.logs
  {
    assert (done + [read])[..|done|] == done;
  }

  lemma ReadFollows<T>(node: Node<T>, done: seq<Read<T>>, read: Read<T>, limit: nat, k: nat)
    requires Answered(node, done, limit) && InOrder(done, k) && read.attempt == k + 1
    requires node(read.attempt, read.first, read.last) == Logs(read.logs) && read.last - read.first < limit
    ensures Answered(node, done + [read], limit) && InOrder(done + [read], k + 1)
  {}

  lemma ReadAsPlanned<T>(node: Node<T>, policy: Policy, done: seq<Read<T>>, read: Read<T>, k: nat, first: Attempt,
                         toBlock: nat, now: Attempt)
    requires AsPlanned(node, policy, first, toBlock, done) && Upcoming(node, policy, first, toBlock, k) == Some(now)
    requires read.attempt == k + 1 && read.first == now.start && read.last == ChunkEnd(now.start, now.chunk, toBlock)
    ensures AsPlanned(node, policy, first, toBlock, done + [read])
  {
    hide ChunkEnd, Upcoming;
  }

  lemma UpcomingAfter<T>(node: Node<T>, policy: Policy, first: Attempt, toBlock: nat, k: nat, now: Attempt)
    requires Upcoming(node, policy, first, toBlock, k) == Some(now)
    ensures Upcoming(node, policy, first, toBlock, k + 1) == Next(node, policy, k + 1, now, toBlock)
  {
    hide Next;
  }

  lemma FailAndRetry<T>(node: Node<T>, policy: Policy, done: seq<Read<T>>, k: nat, first: Attempt, toBlock: nat,
                        now: Attempt, chunk: Size)
    requires Scanning(node, policy, done, k, first, toBlock, now)
    requires Ask(node, k + 1, now, toBlock).Failure?
    requires var f := Ask(node, k + 1, now, toBlock);
             policy.Shrink(f.tooLarge, f.transient, now.chunk, now.retries) == Some(chunk)
    ensures Scanning(node, policy, done, k + 1, first, toBlock, Attempt(now.start, chunk, now.retries + 1))
  {
    UpcomingAfter(node, policy, first, toBlock, k, now);
    hide Covers, Answered, Upcoming;
  }

  lemma FailAndGiveUp<T>(node: Node<T>, policy: Policy, done: seq<Read<T>>, k: nat, first: Attempt, toBlock: nat,
                         now: Attempt)
    requires Scanning(node, policy, done, k, first, toBlock, now) && now.start <= toBlock
    requires first.retries == 0 && Ask(node, k + 1, now, toBlock).Failure?
    requires var f := Ask(node, k + 1, now, toBlock); policy.Shrink(f.tooLarge, f.transient, now.chunk, now.retries).None?
    ensures ScanResult<T>(node, policy, Err, done, k + 1, first.start, toBlock, first.chunk)
  {
    hide Covers, Answered;
  }

  lemma ScanEnds<T>(node: Node<T>, policy: Policy, done: seq<Read<T>>, attempts: nat, first: Attempt, toBlock: nat, now: Attempt)
    requires Scanning(node, policy, done, attempts, first, toBlock, now)
    requires first.retries == 0 && now.retries == 0 && if first.start <= toBlock then now.start == toBlock + 1 else done == []
    ensures ScanResult(node, policy, Ok(Flatten(done)), done, attempts, first.start, toBlock, first.chunk)
  {
    hide Covers, Answered, Flatten;
  }

  // ----- when a scan succeeds

  /** Attempt `k` is answered, whatever it asks for. */
  ghost predicate Answers<T>(node: Node<T>, k: nat) {
    forall s: nat, e: nat :: node(k, s, e).Logs?
  }

  /** One of the first `n + 1` attempts after `k` is answered. */
  ghost predicate AnswersWithin<T>(node: Node<T>, k: nat, n: nat) {
    exists j :: k < j <= k + 1 + n && Answers(node, j)
  }

  /** Failures are of a kind that is retried: transient ones, for factory logs those that ask for
      smaller ranges. */
  ghost predicate FailsGently<T>(node: Node<T>, policy: Policy) {
    forall k: nat, s: nat, e: nat :: node(k, s, e).Failure? ==>
      if policy.Factory? then node(k, s, e).tooLarge else node(k, s, e).transient
  }

  /** No more attempts in a row fail than retries are allowed. */
  ghost predicate Recovers<T>(node: Node<T>, retries: nat) {
    forall k: nat :: AnswersWithin(node, k, retries)
  }

  /** The retries counted are attempts that failed in a row. */
  lemma {:induction false} RetriesFailed<T>(node: Node<T>, policy: Policy, first: Attempt, toBlock: nat, k: nat, j: nat)
    requires Upcoming(node, policy, first, toBlock, k).Some? && first.retries == 0
    ensures Upcoming(node, policy, first, toBlock, k).value.retries <= k
    ensures k - Upcoming(node, policy, first, toBlock, k).value.retries < j <= k ==> !Answers(node, j)
  {
    if k > 0 {
      RetriesFailed(node, policy, first, toBlock, k - 1, j);
      var a := Upcoming(node, policy, first, toBlock, k - 1).value;
      assert Ask(node, k, a, toBlock) == node(k, a.start, ChunkEnd(a.start, a.chunk, toBlock));
    }
  }

  /** A loop gives up on such a failure only when all retries are used up. */
  lemma GivesUpLate<T>(node: Node<T>, policy: Policy, k: nat, a: Attempt, toBlock: nat)
    requires FailsGently(node, policy) && Ask(node, k, a, toBlock).Failure?
    requires Next(node, policy, k, a, toBlock).None?
    ensures a.retries >= policy.maxRetries && !Answers(node, k)
  {
    assert node(k, a.start, ChunkEnd(a.start, a.chunk, toBlock)).Failure?;
  }

  lemma NeverSpent<T>(node: Node<T>, policy: Policy, first: Attempt, toBlock: nat, k: nat, a: Attempt)
    requires Recovers(node, policy.maxRetries) && first.retries == 0
    requires Upcoming(node, policy, first, toBlock, k) == Some(a) && a.retries >= policy.maxRetries
    ensures Answers(node, k + 1)
  {
    hide Upcoming, Answers;
    RetriesFailed(node, policy, first, toBlock, k, 0);
    var from: nat := k - policy.maxRetries;
    assert AnswersWithin(node, from, policy.maxRetries);
    var j :| from < j <= from + 1 + policy.maxRetries && Answers(node, j);
    RetriesFailed(node, policy, first, toBlock, k, j);
  }

  /** A scan succeeds on every node that fails gently and recovers in time. */
  lemma RecoveringScanSucceeds<T>(node: Node<T>, policy: Policy, r: Result<seq<T>>, done: seq<Read<T>>, attempts: nat,
                                  fromBlock: nat, toBlock: nat, limit: Size)
    requires FailsGently(node, policy) && Recovers(node, policy.maxRetries)
    requires ScanResult(node, policy, r, done, attempts, fromBlock, toBlock, limit)
    ensures r.Ok?
  {
    hide FailsGently, Recovers, Answered, InOrder, AsPlanned, Covers, Answers, Upcoming;
    if r.Err? {
      var first := Attempt(fromBlock, limit, 0);
      var a := Upcoming(node, policy, first, toBlock, attempts - 1).value;
      GivesUpLate(node, policy, attempts, a, toBlock);
      NeverSpent(node, policy, first, toBlock, attempts - 1, a);
    }
  }

  /** Every range of at most `most` blocks is answered. */
  ghost predicate AnswersSmall<T>(node: Node<T>, most: Size) {
    forall k: nat, s: nat, e: nat :: s <= e && e - s < most ==> node(k, s, e).Logs?
  }

  /** What fails asks for smaller ranges. */
  ghost predicate FailsAsLarge<T>(node: Node<T>) {
    forall k: nat, s: nat, e: nat :: node(k, s, e).Failure? ==> node(k, s, e).tooLarge
  }

  /** How often a chunk has to be halved to be at most `most`. */
  function Halvings(chunk: Size, most: Size): nat {
    if chunk <= most then 0 else 1 + Halvings(chunk / 2, most)
  }

  lemma {:induction false} HalvingsMono(a: Size, b: Size, most: Size)
    requires a <= b
    ensures Halvings(a, most) <= Halvings(b, most)
    decreases b
  {
    if a > most {
      HalvingsMono(a / 2, b / 2, most);
    }
  }

  lemma HalvedOnce(chunk: Size, next: Size, most: Size)
    requires chunk > most && (2 * next <= chunk || next <= most)
    ensures Halvings(next, most) + 1 <= Halvings(chunk, most)
  {
    if next > most {
      HalvingsMono(next, chunk / 2, most);
    }
  }

  lemma {:induction false} DoublingGrows(a: nat, n: nat)
    ensures a * Pow(2, n) >= a && (n > 0 ==> a * Pow(2, n) == 2 * (a * Pow(2, n - 1)))
  {
    if n > 0 {
      DoublingGrows(a, n - 1);
      MulAssociates(a, 2, Pow(2, n - 1));
      MulAssociates(2, a, Pow(2, n - 1));
    }
  }

  /** It is the least number of halvings that brings the chunk down to `most`. */
  lemma {:induction false} HalvingsIsLeast(chunk: Size, most: Size, n: nat)
    ensures Halvings(chunk, most) <= n <==> chunk < (most + 1) * Pow(2, n)
    decreases n
  {
    DoublingGrows(most + 1, n);
    if n == 0 {
      assert (most + 1) * Pow(2, 0) == most + 1;
    } else if chunk > most {
      HalvingsIsLeast(chunk / 2, most, n - 1);
    }
  }

  /** The retries allow the halvings from the first chunk down to `most`, and the chunk may get that small. */
  ghost predicate CanShrinkTo(policy: Policy, first: Size, most: Size) {
    && (policy.Topic? || Halvings(first, most) <= policy.maxRetries)
    && (policy.Factory? ==> policy.minChunk <= most && first == policy.baseChunk <= U64_MAX)
  }

  /** While blocks are left, the retries so far and the halvings still needed are within the first chunk's. */
  lemma {:induction false} HalvingsLast<T>(node: Node<T>, policy: Policy, first: Attempt, toBlock: nat, k: nat, most: Size)
    requires AnswersSmall(node, most) && FailsAsLarge(node) && CanShrinkTo(policy, first.chunk, most)
    requires first.retries == 0 && toBlock <= U64_MAX && Upcoming(node, policy, first, toBlock, k).Some?
    ensures var a := Upcoming(node, policy, first, toBlock, k).value;
      && a.chunk <= first.chunk
      && (a.start <= toBlock ==> a.retries + Halvings(a.chunk, most) <= Halvings(first.chunk, most))
  {
    if k > 0 {
      var a := AttemptBefore(node, policy, first, toBlock, k);
      hide Upcoming, AnswersSmall, FailsAsLarge, ChunkEnd, CanShrinkTo, Next, Halvings;
      HalvingsLast(node, policy, first, toBlock, k - 1, most);
      NextHalves(node, policy, first.chunk, k, a, toBlock, most);
    }
  }

  lemma AttemptBefore<T>(node: Node<T>, policy: Policy, first: Attempt, toBlock: nat, k: nat) returns (a: Attempt)
    requires k > 0 && Upcoming(node, policy, first, toBlock, k).Some?
    ensures Upcoming(node, policy, first, toBlock, k - 1) == Some(a)
    ensures Upcoming(node, policy, first, toBlock, k) == Next(node, policy, k, a, toBlock)
  {
    a := Upcoming(node, policy, first, toBlock, k - 1).value;
    hide Next;
  }

  lemma NextHalves<T>(node: Node<T>, policy: Policy, first: Size, k: nat, a: Attempt, toBlock: nat, most: Size)
    requires AnswersSmall(node, most) && FailsAsLarge(node) && CanShrinkTo(policy, first, most) && toBlock <= U64_MAX
    requires a.chunk <= first && (a.start <= toBlock ==> a.retries + Halvings(a.chunk, most) <= Halvings(first, most))
    ensures a.start <= toBlock ==> Next(node, policy, k, a, toBlock).Some?
    ensures Next(node, policy, k, a, toBlock).Some? ==>
      var b := Next(node, policy, k, a, toBlock).value;
      && b.chunk <= first
      && (b.start <= toBlock ==> b.retries + Halvings(b.chunk, most) <= Halvings(first, most))
  {
    match Ask(node, k, a, toBlock) {
      case Logs(_) =>
        GrowDoubles(policy, a.chunk);
        HalvingsMono(policy.Grow(a.chunk), first, most);
      case Failure(tooLarge, transient) =>
        assert tooLarge by {
          assert node(k, a.start, ChunkEnd(a.start, a.chunk, toBlock)).Failure?;
        }
        if a.start <= toBlock {
          LargeFails(node, k, a, toBlock, most);
        }
        ShrinkHalves(policy, tooLarge, transient, a.chunk, a.retries);
        var next := policy.Shrink(tooLarge, transient, a.chunk, a.retries);
        hide AnswersSmall, FailsAsLarge, ChunkEnd, Policy.Shrink;
        if a.start <= toBlock {
          HalvedOnce(a.chunk, next.value, most);
        }
    }
  }

  lemma LargeFails<T>(node: Node<T>, k: nat, a: Attempt, toBlock: nat, most: Size)
    requires AnswersSmall(node, most) && a.start <= toBlock <= U64_MAX && Ask(node, k, a, toBlock).Failure?
    ensures a.chunk > most
  {
    var end := ChunkEnd(a.start, a.chunk, toBlock);
    assert node(k, a.start, end).Failure?;
  }

  /** A scan succeeds on every node that rejects only what is too large and answers every range of at most
      `most` blocks, once the retries allow the halvings from the first chunk down to that. */
  lemma ShrinkingScanSucceeds<T>(node: Node<T>, policy: Policy, r: Result<seq<T>>, done: seq<Read<T>>, attempts: nat,
                                 fromBlock: nat, toBlock: nat, limit: Size, most: Size)
    requires AnswersSmall(node, most) && FailsAsLarge(node) && CanShrinkTo(policy, limit, most) && toBlock <= U64_MAX
    requires ScanResult(node, policy, r, done, attempts, fromBlock, toBlock, limit)
    ensures r.Ok?
  {
    hide AnswersSmall, FailsAsLarge, CanShrinkTo, Answered, InOrder, AsPlanned, Covers, Upcoming, Halvings;
    if r.Err? {
      var first := Attempt(fromBlock, limit, 0);
      var a := Upcoming(node, policy, first, toBlock, attempts - 1).value;
      HalvingsLast(node, policy, first, toBlock, attempts - 1, most);
      NextHalves(node, policy, limit, attempts, a, toBlock, most);
    }
  }

  // ----- the three loops

  lemma ScanHoldsRange<T(!new)>(node: Node<T>, policy: Policy, done: seq<Read<T>>, attempts: nat,
                                fromBlock: nat, toBlock: nat, limit: Size)
    requires ScanResult(node, policy, Ok(Flatten(done)), done, attempts, fromBlock, toBlock, limit)
    ensures HoldsRange(node, Flatten(done), fromBlock, toBlock)
  {
    hide Covers, Answered, Honest, InOrder, AsPlanned;
    forall logsOf: nat -> seq<T> | Honest(node, logsOf) ensures Flatten(done) == LogsBetween(logsOf, fromBlock, toBlock + 1) {
      if fromBlock <= toBlock {
        CoveringScanIsComplete(node, logsOf, done, fromBlock, toBlock + 1, limit);
      }
    }
  }

  /** `get_topic_logs_chunked`: reduce on request down to one block, retry transient errors. */
  method TopicLogsChunked<T(!new)>(node: Node<T>, fromBlock: nat, toBlock: nat, chunkBlocks: Size, minChunk: Size,
                                   maxRetries: nat)
    returns (r: Result<seq<T>>, ghost done: seq<Read<T>>, attempts: nat)
    requires toBlock <= U64_MAX
    ensures ScanResult(node, Topic(minChunk, maxRetries), r, done, attempts, fromBlock, toBlock, chunkBlocks)
    ensures r.Ok? ==> HoldsRange(node, r.value, fromBlock, toBlock)
  {
    hide Scanning, ScanResult, Upcoming, Flatten, HoldsRange;
    ghost var policy, first := Topic(minChunk, maxRetries), Attempt(fromBlock, chunkBlocks, 0);
    done, attempts := [], 0;
    ScanStarts(node, policy, first, toBlock);
    if fromBlock > toBlock {
      ScanEnds(node, policy, done, attempts, first, toBlock, first);
      ScanHoldsRange(node, policy, done, attempts, fromBlock, toBlock, chunkBlocks);
      return Ok([]), done, attempts;
    }
    var chunk: Size := chunkBlocks;
    var logs: seq<T> := [];
    var start := fromBlock;
    while start <= toBlock
      invariant start <= toBlock + 1 && chunk <= chunkBlocks && logs == Flatten(done)
      invariant Scanning(node, policy, done, attempts, first, toBlock, Attempt(start, chunk, 0))
      decreases toBlock + 1 - start
    {
      var retryCount := 0;
      ghost var began := start;
      while true
        invariant start == began && chunk <= chunkBlocks && logs == Flatten(done)
        invariant Scanning(node, policy, done, attempts, first, toBlock, Attempt(start, chunk, retryCount))
        decreases chunk, maxRetries - retryCount
      {
        var end := ChunkEnd(start, chunk, toBlock);
        ghost var now, before := Attempt(start, chunk, retryCount), attempts;
        attempts := attempts + 1;
        match node(attempts, start, end) {
          case Logs(found) =>
            PushRead(node, policy, done, Read(attempts, start, end, found), before, first, toBlock, now);
            done := done + [Read(attempts, start, end, found)];
            logs := logs + found;
            if end == U64_MAX {
              ScanEnds(node, policy, done, attempts, first, toBlock, Attempt(end + 1, chunk, 0));
              ScanHoldsRange(node, policy, done, attempts, fromBlock, toBlock, chunkBlocks);
              return Ok(logs), done, attempts;
            }
            start := end + 1;
            break;
          case Failure(tooLarge, transient) =>
            if tooLarge && chunk > 1 {
              chunk := Max(chunk / 2, 1);
            } else if retryCount < maxRetries && transient {
              if chunk > minChunk {
                chunk := Max(chunk / 2, minChunk);
              }
            } else {
              FailAndGiveUp(node, policy, done, before, first, toBlock, now);
              return Err, done, attempts;
            }
            retryCount := retryCount + 1;
            FailAndRetry(node, policy, done, before, first, toBlock, now, chunk);
        }
      }
    }
    ScanEnds(node, policy, done, attempts, first, toBlock, Attempt(start, chunk, 0));
    ScanHoldsRange(node, policy, done, attempts, fromBlock, toBlock, chunkBlocks);
    return Ok(logs), done, attempts;
  }

  /** `get_logs_chunked` of the factory scanner: the chunk shrinks on failure and doubles back
      towards its first size after every success. */
  method FactoryLogsChunked<T(!new)>(node: Node<T>, fromBlock: nat, toBlock: nat, chunkBlocks: Size, logMinChunk: Size,
                                     maxRetries: nat)
    returns (r: Result<seq<T>>, ghost done: seq<Read<T>>, attempts: nat)
    requires toBlock <= U64_MAX && chunkBlocks <= U64_MAX
    ensures ScanResult(node, Factory(Max(Min(logMinChunk, chunkBlocks), 1), chunkBlocks, maxRetries), r, done, attempts,
                       fromBlock, toBlock, chunkBlocks)
    ensures r.Ok? ==> HoldsRange(node, r.value, fromBlock, toBlock)
  {
    hide Scanning, ScanResult, Upcoming, Flatten, HoldsRange;
    var chunk, baseChunk: Size := chunkBlocks, chunkBlocks;
    var minChunk: Size := Max(Min(logMinChunk, baseChunk), 1);
    ghost var policy, first := Factory(minChunk, baseChunk, maxRetries), Attempt(fromBlock, chunkBlocks, 0);
    done, attempts := [], 0;
    ScanStarts(node, policy, first, toBlock);
    if fromBlock > toBlock {
      ScanEnds(node, policy, done, attempts, first, toBlock, first);
      ScanHoldsRange(node, policy, done, attempts, fromBlock, toBlock, chunkBlocks);
      return Ok([]), done, attempts;
    }
    var all: seq<T> := [];
    var start, retryCount := fromBlock, 0;
    while start <= toBlock
      invariant start <= toBlock + 1 && minChunk <= chunk <= baseChunk && all == Flatten(done)
      invariant Scanning(node, policy, done, attempts, first, toBlock, Attempt(start, chunk, retryCount))
      invariant start > toBlock ==> retryCount == 0
      decreases toBlock + 1 - start, maxRetries - retryCount
    {
      var end := ChunkEnd(start, chunk, toBlock);
      ghost var now, before := Attempt(start, chunk, retryCount), attempts;
      attempts := attempts + 1;
      match node(attempts, start, end) {
        case Logs(found) =>
          PushRead(node, policy, done, Read(attempts, start, end, found), before, first, toBlock, now);
          done := done + [Read(attempts, start, end, found)];
          all := all + found;
          retryCount := 0;
          if end == U64_MAX {
            ScanEnds(node, policy, done, attempts, first, toBlock, Attempt(end + 1, policy.Grow(chunk), 0));
            ScanHoldsRange(node, policy, done, attempts, fromBlock, toBlock, chunkBlocks);
            return Ok(all), done, attempts;
          }
          start := end + 1;
          if chunk < baseChunk {
            chunk := Min(Min(chunk * 2, U64_MAX), baseChunk);
          }
        case Failure(tooLarge, transient) =>
          var canReduce := chunk > minChunk;
          if retryCount < maxRetries && (tooLarge || canReduce) {
            chunk := if canReduce then Max(chunk / 2, minChunk) else chunk;
            retryCount := retryCount + 1;
            FailAndRetry(node, policy, done, before, first, toBlock, now, chunk);
          } else {
            FailAndGiveUp(node, policy, done, before, first, toBlock, now);
            return Err, done, attempts;
          }
      }
    }
    ScanEnds(node, policy, done, attempts, first, toBlock, Attempt(start, chunk, 0));
    ScanHoldsRange(node, policy, done, attempts, fromBlock, toBlock, chunkBlocks);
    return Ok(all), done, attempts;
  }

  // ----- the address scan: several requests per range

  /** The node's answer to one attempt for one group of addresses. */
  type GroupNode<!T> = (nat, nat, nat, nat) -> Reply<T>

  /** The order in which the answers of an attempt arrive. */
  type Arrival = nat -> seq<nat>

  ghost predicate ArrivesOnce(arrival: Arrival, groups: nat) {
    forall a: nat :: multiset(arrival(a)) == multiset(Indices(groups))
  }

  /** The logs in the order of arrival, or the first failure that arrives. */
  function Gathered<T>(node: GroupNode<T>, a: nat, s: nat, e: nat, order: seq<nat>): Reply<T> {
    if order == [] then Logs([])
    else match Gathered(node, a, s, e, order[..|order| - 1])
      case Failure(tooLarge, transient) => Failure(tooLarge, transient)
      case Logs(logs) =>
        match node(a, s, e, order[|order| - 1])
        case Failure(tooLarge, transient) => Failure(tooLarge, transient)
        case Logs(more) => Logs(logs + more)
  }

  function AllGroups<T>(node: GroupNode<T>, arrival: Arrival): Node<T> {
    (a: nat, s: nat, e: nat) => Gathered(node, a, s, e, arrival(a))
  }

  function LogsOf<T>(logsOf: (nat, nat) -> seq<T>, group: nat): nat -> seq<T> {
    (block: nat) => logsOf(group, block)
  }

  /** Every group is answered honestly whenever it is answered. */
  ghost predicate HonestGroups<T(!new)>(node: GroupNode<T>, groups: nat, logsOf: (nat, nat) -> seq<T>) {
    forall a: nat, s: nat, e: nat, g: nat :: g < groups && node(a, s, e, g).Logs? ==>
      node(a, s, e, g).logs == LogsBetween(LogsOf(logsOf, g), s, e + 1)
  }

  /** Whatever logs the groups have, a node that answers every request in full is honest. */
  lemma FullAnswersAreHonest<T(!new)>(groups: nat, logsOf: (nat, nat) -> seq<T>)
    ensures HonestGroups((a: nat, s: nat, e: nat, g: nat) => Logs(LogsBetween(LogsOf(logsOf, g), s, e + 1)), groups, logsOf)
  {}

  /** The logs of these groups for the blocks `start..next`, in any order. */
  ghost function LogsOfGroups<T>(logsOf: (nat, nat) -> seq<T>, groups: seq<nat>, start: nat, next: nat): multiset<T> {
    if groups == [] then multiset{}
    else LogsOfGroups(logsOf, groups[..|groups| - 1], start, next)
         + multiset(LogsBetween(LogsOf(logsOf, groups[|groups| - 1]), start, next))
  }

  lemma {:induction false} GroupsAppend<T>(logsOf: (nat, nat) -> seq<T>, p: seq<nat>, q: seq<nat>, start: nat, next: nat)
    ensures LogsOfGroups(logsOf, p + q, start, next) == LogsOfGroups(logsOf, p, start, next) + LogsOfGroups(logsOf, q, start, next)
  {
    hide LogsBetween, LogsOf;
    if q == [] {
      assert p + q == p;
    } else {
      var init, last := q[..|q| - 1], q[|q| - 1];
      GroupsAppend(logsOf, p, init, start, next);
      assert (p + q)[..|p + q| - 1] == p + init && (p + q)[|p + q| - 1] == last;
    }
  }

  /** The order of the groups does not matter. */
  lemma {:induction false} GroupsPermuted<T>(logsOf: (nat, nat) -> seq<T>, p: seq<nat>, q: seq<nat>, start: nat, next: nat)
    requires multiset(p) == multiset(q)
    ensures LogsOfGroups(logsOf, p, start, next) == LogsOfGroups(logsOf, q, start, next)
  {
    if q == [] {
      assert |p| == |multiset(p)| == |multiset(q)| == 0;
    } else {
      var init, last := q[..|q| - 1], q[|q| - 1];
      assert q == init + [last];
      var i := PlaceOf(p, init, last);
      GroupsPermuted(logsOf, p[..i] + p[i + 1..], init, start, next);
      hide LogsOfGroups;
      MoveToEnd(logsOf, p[..i], last, p[i + 1..], start, next);
    }
  }

  /** A rearrangement has the last element somewhere, and the others around it. */
  lemma PlaceOf(p: seq<nat>, init: seq<nat>, last: nat) returns (i: nat)
    requires multiset(p) == multiset(init + [last])
    ensures i < |p| && p == p[..i] + [last] + p[i + 1..] && multiset(p[..i] + p[i + 1..]) == multiset(init)
    ensures |p[..i] + p[i + 1..]| == |init|
  {
    assert last in multiset(init + [last]) && last in multiset(p);
    i :| 0 <= i < |p| && p[i] == last;
    var rest := p[..i] + p[i + 1..];
    assert p == p[..i] + [last] + p[i + 1..];
    assert multiset(rest) == multiset(p) - multiset{last} == multiset(init);
    assert |multiset(rest)| == |rest| && |multiset(init)| == |init|;
  }

  lemma MoveToEnd<T>(logsOf: (nat, nat) -> seq<T>, p: seq<nat>, g: nat, q: seq<nat>, start: nat, next: nat)
    ensures LogsOfGroups(logsOf, p + [g] + q, start, next) ==
            LogsOfGroups(logsOf, p + q, start, next) + multiset(LogsBetween(LogsOf(logsOf, g), start, next))
  {
    GroupsAppend(logsOf, p + [g], q, start, next);
    GroupsAppend(logsOf, p, q, start, next);
    assert (p + [g])[..|p|] == p;
  }

  lemma {:induction false} GroupsSplit<T>(logsOf: (nat, nat) -> seq<T>, groups: seq<nat>, a: nat, b: nat, c: nat)
    requires a <= b <= c
    ensures LogsOfGroups(logsOf, groups, a, c) == LogsOfGroups(logsOf, groups, a, b) + LogsOfGroups(logsOf, groups, b, c)
  {
    if groups != [] {
      GroupsSplit(logsOf, groups[..|groups| - 1], a, b, c);
      LogsBetweenSplits(LogsOf(logsOf, groups[|groups| - 1]), a, b, c);
    }
  }

  lemma {:induction false} NoBlocksNoLogs<T>(logsOf: (nat, nat) -> seq<T>, groups: seq<nat>, start: nat, next: nat)
    requires next <= start
    ensures LogsOfGroups(logsOf, groups, start, next) == multiset{}
  {
    if groups != [] {
      NoBlocksNoLogs(logsOf, groups[..|groups| - 1], start, next);
    }
  }

  lemma GroupAnswer<T(!new)>(node: GroupNode<T>, groups: nat, logsOf: (nat, nat) -> seq<T>, a: nat, s: nat, e: nat, g: nat)
    requires HonestGroups(node, groups, logsOf) && g < groups && node(a, s, e, g).Logs?
    ensures node(a, s, e, g).logs == LogsBetween(LogsOf(logsOf, g), s, e + 1)
  {
    hide LogsBetween, LogsOf;
  }

  lemma {:induction false} GatheredHolds<T(!new)>(node: GroupNode<T>, groups: nat, logsOf: (nat, nat) -> seq<T>,
                                                  a: nat, s: nat, e: nat, order: seq<nat>)
    requires HonestGroups(node, groups, logsOf) && forall g :: g in order ==> g < groups
    requires Gathered(node, a, s, e, order).Logs?
    ensures multiset(Gathered(node, a, s, e, order).logs) == LogsOfGroups(logsOf, order, s, e + 1)
  {
    hide HonestGroups, LogsBetween, LogsOf;
    if order != [] {
      var init, last := order[..|order| - 1], order[|order| - 1];
      forall g | g in init ensures g < groups {
        var i :| 0 <= i < |init| && init[i] == g;
        assert order[i] == g && order[i] in order;
      }
      GatheredHolds(node, groups, logsOf, a, s, e, init);
      assert order[|order| - 1] in order;
      GroupAnswer(node, groups, logsOf, a, s, e, last);
    }
  }

  /** One read of all groups, whatever the order of arrival. */
  lemma ReadHoldsGroups<T(!new)>(node: GroupNode<T>, arrival: Arrival, groups: nat, logsOf: (nat, nat) -> seq<T>, read: Read<T>)
    requires ArrivesOnce(arrival, groups) && HonestGroups(node, groups, logsOf)
    requires AllGroups(node, arrival)(read.attempt, read.first, read.last) == Logs(read.logs)
    ensures multiset(read.logs) == LogsOfGroups(logsOf, Indices(groups), read.first, read.last + 1)
  {
    var order := arrival(read.attempt);
    assert multiset(order) == multiset(Indices(groups));
    hide HonestGroups, LogsOfGroups, Gathered;
    forall g | g in order ensures g < groups {
      assert g in multiset(Indices(groups));
    }
    GatheredHolds(node, groups, logsOf, read.attempt, read.first, read.last, order);
    GroupsPermuted(logsOf, order, Indices(groups), read.first, read.last + 1);
  }

  lemma {:induction false} CoveringGroupsComplete<T(!new)>(node: GroupNode<T>, arrival: Arrival, groups: nat,
      logsOf: (nat, nat) -> seq<T>, done: seq<Read<T>>, start: nat, next: nat, limit: nat)
    requires ArrivesOnce(arrival, groups) && HonestGroups(node, groups, logsOf)
    requires Covers(done, start, next) && Answered(AllGroups(node, arrival), done, limit)
    ensures multiset(Flatten(done)) == LogsOfGroups(logsOf, Indices(groups), start, next)
  {
    hide HonestGroups, LogsOfGroups, AllGroups, ArrivesOnce;
    if done == [] {
      NoBlocksNoLogs(logsOf, Indices(groups), start, next);
    } else {
      var n := |done| - 1;
      CoveringGroupsComplete(node, arrival, groups, logsOf, done[..n], start, done[n].first, limit);
      CoverIsForward(done[..n], start, done[n].first);
      GroupsSplit(logsOf, Indices(groups), start, done[n].first, next);
      ReadHoldsGroups(node, arrival, groups, logsOf, done[n]);
    }
  }

  /** Up to order the logs collected are those of all groups for the whole range, if every group is
      answered honestly. */
  ghost predicate HoldsGroups<T(!new)>(node: GroupNode<T>, groups: nat, logs: seq<T>, fromBlock: nat, toBlock: nat) {
    forall logsOf: (nat, nat) -> seq<T> :: HonestGroups(node, groups, logsOf) ==>
      multiset(logs) == LogsOfGroups(logsOf, Indices(groups), fromBlock, toBlock + 1)
  }

  /** The first failure to arrive is the failure of the whole range. */
  lemma {:induction false} FailedGroupFails<T>(node: GroupNode<T>, a: nat, s: nat, e: nat, order: seq<nat>, k: nat)
    requires k < |order| && Gathered(node, a, s, e, order[..k]).Logs? && node(a, s, e, order[k]).Failure?
    ensures Gathered(node, a, s, e, order) == node(a, s, e, order[k])
    decreases |order|
  {
    var n := |order| - 1;
    if k < n {
      assert order[..n][..k] == order[..k];
      FailedGroupFails(node, a, s, e, order[..n], k);
    }
  }

  lemma ScanHoldsGroups<T(!new)>(node: GroupNode<T>, arrival: Arrival, groups: nat, policy: Policy, done: seq<Read<T>>,
                                 attempts: nat, fromBlock: nat, toBlock: nat, limit: Size)
    requires ArrivesOnce(arrival, groups)
    requires ScanResult(AllGroups(node, arrival), policy, Ok(Flatten(done)), done, attempts, fromBlock, toBlock, limit)
    ensures HoldsGroups(node, groups, Flatten(done), fromBlock, toBlock)
  {
    hide Covers, Answered, HonestGroups, LogsOfGroups, InOrder, AsPlanned, AllGroups;
    forall logsOf: (nat, nat) -> seq<T> | HonestGroups(node, groups, logsOf)
      ensures multiset(Flatten(done)) == LogsOfGroups(logsOf, Indices(groups), fromBlock, toBlock + 1)
    {
      if fromBlock <= toBlock {
        CoveringGroupsComplete(node, arrival, groups, logsOf, done, fromBlock, toBlock + 1, limit);
      } else {
        NoBlocksNoLogs(logsOf, Indices(groups), fromBlock, toBlock + 1);
      }
    }
  }

  /** The requests for one range, gathered as they arrive until one fails. */
  method GatherRange<T>(node: GroupNode<T>, attempt: nat, start: nat, end: nat, order: seq<nat>) returns (answer: Reply<T>)
    ensures answer == Gathered(node, attempt, start, end, order)
  {
    var rangeLogs: seq<T> := [];
    for arrived := 0 to |order|
      invariant Gathered(node, attempt, start, end, order[..arrived]) == Logs(rangeLogs)
    {
      assert order[..arrived + 1][..arrived] == order[..arrived];
      match node(attempt, start, end, order[arrived]) {
        case Logs(found) =>
          rangeLogs := rangeLogs + found;
        case Failure(tooLarge, transient) =>
          FailedGroupFails(node, attempt, start, end, order, arrived);
          return Failure(tooLarge, transient);
      }
    }
    assert order[..|order|] == order;
    return Logs(rangeLogs);
  }

  /** `get_address_logs_chunked`: a range counts as read only when every address group answered;
      a failed group throws the whole range away. */
  method AddressLogsChunked<T(!new)>(node: GroupNode<T>, arrival: Arrival, groups: nat, fromBlock: nat, toBlock: nat,
                                     chunkBlocks: Size, minChunk: Size, maxRetries: nat)
    returns (r: Result<seq<T>>, ghost done: seq<Read<T>>, attempts: nat)
    requires toBlock <= U64_MAX && ArrivesOnce(arrival, groups)
    ensures ScanResult(AllGroups(node, arrival), Address(minChunk, maxRetries), r, done, attempts,
                       fromBlock, toBlock, chunkBlocks)
    ensures r.Ok? ==> HoldsGroups(node, groups, r.value, fromBlock, toBlock)
  {
    hide Scanning, ScanResult, Upcoming, Flatten, HoldsGroups, ArrivesOnce, Gathered;
    ghost var all := AllGroups(node, arrival);
    ghost var policy, first := Address(minChunk, maxRetries), Attempt(fromBlock, chunkBlocks, 0);
    done, attempts := [], 0;
    ScanStarts(all, policy, first, toBlock);
    if fromBlock > toBlock {
      ScanEnds(all, policy, done, attempts, first, toBlock, first);
      ScanHoldsGroups(node, arrival, groups, policy, done, attempts, fromBlock, toBlock, chunkBlocks);
      return Ok([]), done, attempts;
    }
    var chunk: Size := chunkBlocks;
    var logs: seq<T> := [];
    var start := fromBlock;
    while start <= toBlock
      invariant start <= toBlock + 1 && chunk <= chunkBlocks && logs == Flatten(done)
      invariant Scanning(all, policy, done, attempts, first, toBlock, Attempt(start, chunk, 0))
      decreases toBlock + 1 - start
    {
      var retryCount := 0;
      ghost var began := start;
      while true
        invariant start == began && chunk <= chunkBlocks && logs == Flatten(done)
        invariant Scanning(all, policy, done, attempts, first, toBlock, Attempt(start, chunk, retryCount))
        decreases maxRetries - retryCount
      {
        var end := ChunkEnd(start, chunk, toBlock);
        ghost var now, before := Attempt(start, chunk, retryCount), attempts;
        attempts := attempts + 1;
        var answer := GatherRange(node, attempts, start, end, arrival(attempts));
        match answer {
          case Logs(found) =>
            PushRead(all, policy, done, Read(attempts, start, end, found), before, first, toBlock, now);
            done := done + [Read(attempts, start, end, found)];
            logs := logs + found;
            if end == U64_MAX {
              ScanEnds(all, policy, done, attempts, first, toBlock, Attempt(end + 1, chunk, 0));
              ScanHoldsGroups(node, arrival, groups, policy, done, attempts, fromBlock, toBlock, chunkBlocks);
              return Ok(logs), done, attempts;
            }
            start := end + 1;
            break;
          case Failure(tooLarge, transient) =>
            if tooLarge && retryCount < maxRetries {
              chunk := Max(chunk / 2, 1);
            } else if retryCount < maxRetries && transient {
              if chunk > minChunk {
                chunk := Max(chunk / 2, minChunk);
              }
            } else {
              FailAndGiveUp(all, policy, done, before, first, toBlock, now);
              return Err, done, attempts;
            }
            retryCount := retryCount + 1;
            FailAndRetry(all, policy, done, before, first, toBlock, now, chunk);
        }
      }
    }
    ScanEnds(all, policy, done, attempts, first, toBlock, Attempt(start, chunk, 0));
    ScanHoldsGroups(node, arrival, groups, policy, done, attempts, fromBlock, toBlock, chunkBlocks);
    return Ok(logs), done, attempts;
  }
}
