/** The submission tail of `process_routed_candidate` (`src/engine.rs`): check, reserve,
    submit, and settle by the receipt. The submitter and the clock are nondeterministic: their
    answers come with the candidate. */
module Engine {
  import opened Common
  import N = NonceManager
  import R = RiskManager

  datatype Receipt = Included | Reverted | TimedOut | ReceiptError

  datatype Submission = SubmitError | Sent(txHash: N.TxHash, receipt: Receipt)

  /** A validated candidate with everything the outside world answers on its way. */
  datatype Candidate = Candidate(plan: R.Plan, tokensHealthy: bool, maxPriorityFee: nat, maxFee: nat,
                                 submission: Submission, sentAt: nat, checkDay: R.Day, settleDay: R.Day)

  datatype Verdict = DepegRejected | RiskRejected | Simulated | SubmittedOk | SubmissionRejected

  datatype State = State(nonces: N.Book, risk: R.Ledger)

  /** `i128_to_i64_saturating` */
  function Saturate64(n: int): int {
    if n > I64_MAX then I64_MAX else if n < I64_MIN then I64_MIN else n
  }

  predicate Executes(limits: R.Limits, s: State, c: Candidate, simulateOnly: bool) {
    c.tokensHealthy && R.Allowed(limits, s.risk, c.plan, c.checkDay) && !simulateOnly
  }

  function PendingFor(s: State, c: Candidate, txHash: N.TxHash): N.Pending {
    N.Pending(s.nonces.next, txHash, c.sentAt, c.maxPriorityFee, c.maxFee)
  }

  /** The state after one candidate. */
  function Process(limits: R.Limits, s: State, c: Candidate, simulateOnly: bool): State {
    if !Executes(limits, s, c, simulateOnly) then s
    else
      var nonce := s.nonces.next;
      var nonces := N.Reserve(s.nonces);
      var risk := R.MarkSubmitted(s.risk);
      match c.submission
      case SubmitError => State(N.Settle(nonces, nonce, N.Dropped), R.MarkFailedSubmission(risk))
      case Sent(txHash, receipt) =>
        var sent := N.MarkSubmitted(nonces, PendingFor(s, c, txHash));
        match receipt
        case Included => State(N.Settle(sent, nonce, N.Included), R.MarkFinalized(risk, Saturate64(c.plan.netProfit), c.settleDay))
        case Reverted => State(N.Settle(sent, nonce, N.Included), R.MarkFinalized(risk, -c.plan.gasCost, c.settleDay))
        case TimedOut => State(sent, R.MarkFailedSubmission(risk))
        case ReceiptError => State(sent, R.MarkFailedSubmission(risk))
  }

  method ProcessRoutedCandidate(nonces: N.NonceManager, risk: R.RiskManager, c: Candidate, simulateOnly: bool)
    returns (v: Verdict)
    modifies nonces, risk
    ensures State(nonces.Now(), risk.Now()) == Process(risk.limits, State(old(nonces.Now()), old(risk.Now())), c, simulateOnly)
    ensures v.DepegRejected? <==> !c.tokensHealthy
    ensures v.RiskRejected? <==> c.tokensHealthy && !R.Allowed(risk.limits, old(risk.Now()), c.plan, c.checkDay)
    ensures v.SubmittedOk? || v.SubmissionRejected? <==>
      Executes(risk.limits, State(old(nonces.Now()), old(risk.Now())), c, simulateOnly)
    ensures v.SubmittedOk? <==>
      && Executes(risk.limits, State(old(nonces.Now()), old(risk.Now())), c, simulateOnly)
      && c.submission.Sent? && c.submission.receipt.Included?
  {
    if !c.tokensHealthy {
      return DepegRejected;
    }
    var ok := risk.PreTradeCheck(c.plan, c.checkDay);
    if !ok {
      return RiskRejected;
    }
    if simulateOnly {
      return Simulated;
    }
    var nonce := nonces.ReserveNonce();
    risk.SubmittedOne();
    match c.submission {
      case SubmitError =>
        nonces.SetDropped(nonce);
        risk.FailedSubmission();
        return SubmissionRejected;
      case Sent(txHash, receipt) =>
        nonces.SetSubmitted(nonce, txHash, c.sentAt, c.maxPriorityFee, c.maxFee);
        match receipt {
          case Included =>
            nonces.SetIncluded(nonce);
            risk.Finalized(Saturate64(c.plan.netProfit), c.settleDay);
            return SubmittedOk;
          case Reverted =>
            nonces.SetIncluded(nonce);
            risk.Finalized(-c.plan.gasCost, c.settleDay);
            return SubmissionRejected;
          case TimedOut =>
            risk.FailedSubmission();
            return SubmissionRejected;
          case ReceiptError =>
            risk.FailedSubmission();
            return SubmissionRejected;
        }
    }
  }

  // ----- runs

  /** Between candidates the nonce book may also be synced, reconciled, or have an entry cancelled. */
  datatype Action =
    | Trade(candidate: Candidate)
    | SyncNonce(onchain: nat)
    | ReconcileNonces(count: nat, statusOf: N.TxHash -> N.ReceiptStatus)
    | CancelNonce(nonce: nat)

  function Do(limits: R.Limits, s: State, a: Action, simulateOnly: bool): State {
    match a
    case Trade(c) => Process(limits, s, c, simulateOnly)
    case SyncNonce(onchain) => s.(nonces := N.Sync(s.nonces, onchain))
    case ReconcileNonces(count, statusOf) => s.(nonces := N.Reconcile(s.nonces, count, statusOf))
    case CancelNonce(nonce) => s.(nonces := N.Cancel(s.nonces, nonce))
  }

  const START: State := State(N.EMPTY, R.EMPTY)

  function Run(limits: R.Limits, actions: seq<Action>, simulateOnly: bool): State {
    if actions == [] then START
    else Do(limits, Run(limits, actions[..|actions| - 1], simulateOnly), actions[|actions| - 1], simulateOnly)
  }

  /** The nonces handed out during a run, in order. */
  function ReservedNonces(limits: R.Limits, actions: seq<Action>, simulateOnly: bool): seq<nat> {
    if actions == [] then []
    else
      var before := actions[..|actions| - 1];
      var s, last := Run(limits, before, simulateOnly), actions[|actions| - 1];
      ReservedNonces(limits, before, simulateOnly)
      + (if last.Trade? && Executes(limits, s, last.candidate, simulateOnly) then [s.nonces.next] else [])
  }

  /** The last day any candidate has seen. */
  function Clock(actions: seq<Action>): R.Day {
    if actions == [] then 0
    else
      var last := actions[|actions| - 1];
      if last.Trade? then last.candidate.settleDay else Clock(actions[..|actions| - 1])
  }

  /** Candidates come one after the other and the clock never goes back. */
  ghost predicate ClockNeverGoesBack(actions: seq<Action>) {
    actions != [] ==>
      var before, last := actions[..|actions| - 1], actions[|actions| - 1];
      && ClockNeverGoesBack(before)
      && (last.Trade? ==> Clock(before) <= last.candidate.checkDay <= last.candidate.settleDay)
  }

  /** The largest gas cost of a reverted transaction settled on `day`. */
  function WorstRevertOn(actions: seq<Action>, day: R.Day): nat {
    if actions == [] then 0
    else
      var rest, last := WorstRevertOn(actions[..|actions| - 1], day), actions[|actions| - 1];
      if last.Trade? && last.candidate.submission == Sent(TxHashOf(last.candidate), Reverted) && last.candidate.settleDay == day
      then Max(rest, last.candidate.plan.gasCost) else rest
  }

  function TxHashOf(c: Candidate): N.TxHash {
    if c.submission.Sent? then c.submission.txHash else 0
  }

  ghost predicate LossBounded(limits: R.Limits, l: R.Ledger, actions: seq<Action>) {
    forall d: R.Day :: -R.PnlOn(l, d) <= limits.dailyLossLimit + WorstRevertOn(actions, d)
  }

  ghost predicate DaysUpTo(l: R.Ledger, clock: R.Day) {
    forall d :: d in l.dailyPnl ==> d <= clock
  }

  ghost predicate Quiet(s: State) {
    N.BookValid(s.nonces) && N.NoneReserved(s.nonces) && s.risk.openTxCount == 0
  }

  /** From a quiet state a candidate leads back to a quiet state, and neither settling
      branch runs into the underflow guard. */
  lemma ProcessStaysQuiet(limits: R.Limits, s: State, c: Candidate, simulateOnly: bool)
    requires Quiet(s)
    ensures Quiet(Process(limits, s, c, simulateOnly))
    ensures Executes(limits, s, c, simulateOnly) ==> !R.GuardFires(R.MarkSubmitted(s.risk))
  {
    var txHash := TxHashOf(c);
    N.OutcomeKeepsBook(s.nonces, PendingFor(s, c, txHash));
    hide N.BookValid, N.NoneReserved, N.Reserve, N.MarkSubmitted, N.Settle, Executes;
  }

  /** What becomes of the nonce an executed candidate takes. */
  lemma NonceFollowsOutcome(limits: R.Limits, s: State, c: Candidate, simulateOnly: bool)
    requires Quiet(s) && Executes(limits, s, c, simulateOnly)
    ensures var t, n := Process(limits, s, c, simulateOnly).nonces, s.nonces.next;
      && n !in s.nonces.states && n in t.states && t.next == n + 1
      && (t.states[n].Dropped? <==> c.submission.SubmitError?)
      && (t.states[n].Included? <==> c.submission.Sent? && (c.submission.receipt.Included? || c.submission.receipt.Reverted?))
      && (n in t.pending <==> c.submission.Sent? && (c.submission.receipt.TimedOut? || c.submission.receipt.ReceiptError?))
      && (n in t.pending ==> t.pending[n] == N.Pending(n, c.submission.txHash, c.sentAt, c.maxPriorityFee, c.maxFee))
      && (forall m :: m != n ==> (m in t.pending <==> m in s.nonces.pending))
  {}

  /** A candidate is submitted exactly when its tokens are healthy, nothing is only simulated, and it is
      within all five limits. */
  lemma ExecutesWithinLimits(limits: R.Limits, s: State, c: Candidate, simulateOnly: bool)
    ensures Executes(limits, s, c, simulateOnly) <==>
      && c.tokensHealthy && !simulateOnly
      && c.plan.inputValue <= limits.maxPosition
      && (c.plan.usesFlashLoan ==> c.plan.flashLoanValue <= limits.maxFlashLoan)
      && c.plan.netProfit >= limits.minProfit
      && s.risk.openTxCount < limits.maxConcurrentTx
      && (c.checkDay in s.risk.dailyPnl ==> s.risk.dailyPnl[c.checkDay] + limits.dailyLossLimit >= 0)
  {}

  /** What a candidate adds to a day's result: its profit, cut off at 64 bits, when it is included, its gas
      cost taken off when it reverts, on the day it is settled; nothing otherwise. */
  lemma ProcessBooks(limits: R.Limits, s: State, c: Candidate, simulateOnly: bool, day: R.Day)
    requires Quiet(s)
    ensures var before, after := R.PnlOn(s.risk, day), R.PnlOn(Process(limits, s, c, simulateOnly).risk, day);
      if !Executes(limits, s, c, simulateOnly) || c.submission.SubmitError? || day != c.settleDay then after == before
      else match c.submission.receipt
        case Included => after == before + (if c.plan.netProfit <= I64_MAX then c.plan.netProfit else I64_MAX)
        case Reverted => after == before - c.plan.gasCost
        case TimedOut => after == before
        case ReceiptError => after == before
  {}

  /** The results settled on a day during a run. */
  function SettledOn(limits: R.Limits, actions: seq<Action>, simulateOnly: bool, day: R.Day): int {
    if actions == [] then 0
    else
      var before, last := actions[..|actions| - 1], actions[|actions| - 1];
      SettledOn(limits, before, simulateOnly, day) +
      if last.Trade? && Executes(limits, Run(limits, before, simulateOnly), last.candidate, simulateOnly)
         && last.candidate.submission.Sent? && last.candidate.settleDay == day
      then
        var plan := last.candidate.plan;
        match last.candidate.submission.receipt
        case Included => Min(plan.netProfit, I64_MAX)
        case Reverted => -plan.gasCost
        case TimedOut => 0
        case ReceiptError => 0
      else 0
  }

  /** Over every run the ledger of a day is the sum of what was settled on it. */
  lemma {:induction false} RunBooks(limits: R.Limits, actions: seq<Action>, simulateOnly: bool, day: R.Day)
    requires ClockNeverGoesBack(actions)
    ensures R.PnlOn(Run(limits, actions, simulateOnly).risk, day) == SettledOn(limits, actions, simulateOnly, day)
  {
    if actions != [] {
      var before, last := actions[..|actions| - 1], actions[|actions| - 1];
      RunBooks(limits, before, simulateOnly, day);
      RunIsSafe(limits, before, simulateOnly);
      var s := Run(limits, before, simulateOnly);
      RunStep(limits, before, last, simulateOnly);
      assert actions == before + [last];
      if last.Trade? {
        ProcessBooks(limits, s, last.candidate, simulateOnly, day);
      }
      hide Quiet, LossBounded, DaysUpTo, Executes, Process, Run, N.Sync, N.Reconcile, N.Cancel;
    }
  }

  lemma ProcessBoundsLoss(limits: R.Limits, s: State, actions: seq<Action>, c: Candidate, simulateOnly: bool)
    requires Quiet(s) && LossBounded(limits, s.risk, actions) && DaysUpTo(s.risk, Clock(actions))
    requires Clock(actions) <= c.checkDay <= c.settleDay
    ensures var t := Process(limits, s, c, simulateOnly).risk;
      LossBounded(limits, t, actions + [Trade(c)]) && DaysUpTo(t, c.settleDay)
  {
    var t := Process(limits, s, c, simulateOnly).risk;
    var longer := actions + [Trade(c)];
    assert longer[..|actions|] == actions;
    forall d: R.Day ensures -R.PnlOn(t, d) <= limits.dailyLossLimit + WorstRevertOn(longer, d) {
      assert -R.PnlOn(s.risk, d) <= limits.dailyLossLimit + WorstRevertOn(actions, d);
      assert WorstRevertOn(longer, d) >= WorstRevertOn(actions, d);
    }
  }

  /** Over every run: the book is valid with nothing left reserved, nothing is left open, no
      day's loss exceeds the limit plus the largest reverted gas cost of that day, and the
      nonces handed out are pairwise distinct. */
  lemma {:induction false} RunIsSafe(limits: R.Limits, actions: seq<Action>, simulateOnly: bool)
    requires ClockNeverGoesBack(actions)
    ensures Quiet(Run(limits, actions, simulateOnly))
    ensures LossBounded(limits, Run(limits, actions, simulateOnly).risk, actions)
    ensures DaysUpTo(Run(limits, actions, simulateOnly).risk, Clock(actions))
    ensures NoDup(ReservedNonces(limits, actions, simulateOnly))
    ensures forall n :: n in ReservedNonces(limits, actions, simulateOnly) ==> n < Run(limits, actions, simulateOnly).nonces.next
  {
    if actions != [] {
      var before, last := actions[..|actions| - 1], actions[|actions| - 1];
      RunIsSafe(limits, before, simulateOnly);
      assert actions == before + [last];
      var s := Run(limits, before, simulateOnly);
      RunStep(limits, before, last, simulateOnly);
      hide Quiet, LossBounded, DaysUpTo, Do, Run, Executes, Clock, ReservedNonces, NoDup, ClockNeverGoesBack;
      StepIsSafe(limits, s, before, last, simulateOnly);
      NextIsFresh(ReservedNonces(limits, before, simulateOnly), s.nonces.next);
    }
  }

  lemma NextIsFresh(reserved: seq<nat>, next: nat)
    requires NoDup(reserved) && forall n :: n in reserved ==> n < next
    ensures NoDup(reserved + [next]) && forall n :: n in reserved + [next] ==> n < next + 1
  {
    NoDupPush(reserved, next);
  }

  lemma RunStep(limits: R.Limits, before: seq<Action>, a: Action, simulateOnly: bool)
    ensures Run(limits, before + [a], simulateOnly) == Do(limits, Run(limits, before, simulateOnly), a, simulateOnly)
    ensures ReservedNonces(limits, before + [a], simulateOnly) == ReservedNonces(limits, before, simulateOnly)
            + (if a.Trade? && Executes(limits, Run(limits, before, simulateOnly), a.candidate, simulateOnly)
               then [Run(limits, before, simulateOnly).nonces.next] else [])
    ensures ClockNeverGoesBack(before + [a]) && a.Trade? ==> Clock(before) <= a.candidate.checkDay <= a.candidate.settleDay
  {
    assert (before + [a])[..|before|] == before;
    hide Do, Executes;
  }

  /** What one action keeps, and how far it moves the nonce. */
  lemma StepIsSafe(limits: R.Limits, s: State, before: seq<Action>, a: Action, simulateOnly: bool)
    requires Quiet(s) && LossBounded(limits, s.risk, before) && DaysUpTo(s.risk, Clock(before))
    requires a.Trade? ==> Clock(before) <= a.candidate.checkDay <= a.candidate.settleDay
    ensures var t := Do(limits, s, a, simulateOnly);
      && Quiet(t) && LossBounded(limits, t.risk, before + [a]) && DaysUpTo(t.risk, Clock(before + [a]))
      && t.nonces.next >= s.nonces.next
      && (a.Trade? && Executes(limits, s, a.candidate, simulateOnly) ==> t.nonces.next == s.nonces.next + 1)
  {
    assert (before + [a])[..|before|] == before;
    match a {
      case Trade(c) =>
        ProcessStaysQuiet(limits, s, c, simulateOnly);
        ProcessBoundsLoss(limits, s, before, c, simulateOnly);
        hide Quiet, LossBounded, DaysUpTo, Executes;
        ProcessTakesOne(limits, s, c, simulateOnly);
      case SyncNonce(onchain) => N.MaintenanceKeepsBook(s.nonces, onchain, 0, _ => N.NotFound);
        hide N.BookValid, N.NoneReserved;
      case ReconcileNonces(count, statusOf) => N.MaintenanceKeepsBook(s.nonces, count, 0, statusOf);
        hide N.BookValid, N.NoneReserved;
      case CancelNonce(nonce) => N.MaintenanceKeepsBook(s.nonces, 0, nonce, _ => N.NotFound);
        hide N.BookValid, N.NoneReserved;
    }
  }

  lemma ProcessTakesOne(limits: R.Limits, s: State, c: Candidate, simulateOnly: bool)
    ensures var t := Process(limits, s, c, simulateOnly);
      t.nonces.next == s.nonces.next + (if Executes(limits, s, c, simulateOnly) then 1 else 0)
  {
    hide Executes;
  }
}
