/** Trade limits and the daily profit ledger (`src/risk/limits.rs`). The clock is a parameter. */
module RiskManager {
  import opened Common

  type Day = nat

  datatype Limits = Limits(maxPosition: nat, maxFlashLoan: nat, minProfit: nat, dailyLossLimit: nat, maxConcurrentTx: nat)

  datatype Plan = Plan(inputValue: nat, usesFlashLoan: bool, flashLoanValue: nat, netProfit: int, gasCost: int)

  datatype Ledger = Ledger(openTxCount: nat, dailyPnl: map<Day, int>)

  const EMPTY: Ledger := Ledger(0, map[])

  function PnlOn(l: Ledger, day: Day): int {
    if day in l.dailyPnl then l.dailyPnl[day] else 0
  }

  /** `pre_trade_check` */
  predicate Allowed(limits: Limits, l: Ledger, plan: Plan, day: Day) {
    && plan.inputValue <= limits.maxPosition
    && (plan.usesFlashLoan ==> plan.flashLoanValue <= limits.maxFlashLoan)
    && !(plan.netProfit < 0 || plan.netProfit < limits.minProfit)
    && l.openTxCount < limits.maxConcurrentTx
    && !(PnlOn(l, day) < 0 && -PnlOn(l, day) > limits.dailyLossLimit)
  }

  function MarkSubmitted(l: Ledger): Ledger {
    l.(openTxCount := l.openTxCount + 1)
  }

  /** The underflow guard fires when nothing was open. */
  predicate GuardFires(l: Ledger) {
    l.openTxCount == 0
  }

  function MarkFinalized(l: Ledger, profit: int, day: Day): Ledger {
    if GuardFires(l) then l
    else Ledger(l.openTxCount - 1, l.dailyPnl[day := PnlOn(l, day) + profit])
  }

  function MarkFailedSubmission(l: Ledger): Ledger {
    l.(openTxCount := SatSub(l.openTxCount, 1))
  }

  /** What was opened is closed again: a failed submission leaves the ledger as it was, a settled one
      changes only its day, by exactly its result. The underflow guard fires only when nothing is
      open, and then nothing is booked. */
  lemma SubmitThenSettle(l: Ledger, profit: int, day: Day, other: Day)
    ensures MarkFailedSubmission(MarkSubmitted(l)) == l
    ensures var t := MarkFinalized(MarkSubmitted(l), profit, day);
      && t.openTxCount == l.openTxCount
      && PnlOn(t, other) == PnlOn(l, other) + (if other == day then profit else 0)
    ensures GuardFires(l) ==> MarkFinalized(l, profit, day) == l
  {}

  class RiskManager {
    const limits: Limits
    var openTxCount: nat
    var dailyPnl: map<Day, int>

    ghost function Now(): Ledger
      reads this
    {
      Ledger(openTxCount, dailyPnl)
    }

    constructor (limits: Limits)
      ensures this.limits == limits && Now() == EMPTY
    {
      this.limits := limits;
      openTxCount, dailyPnl := 0, map[];
    }

    method PreTradeCheck(plan: Plan, today: Day) returns (ok: bool)
      ensures ok <==> Allowed(limits, Now(), plan, today)
      ensures ok <==>
        && plan.inputValue <= limits.maxPosition
        && (!plan.usesFlashLoan || plan.flashLoanValue <= limits.maxFlashLoan)
        && plan.netProfit >= limits.minProfit
        && openTxCount < limits.maxConcurrentTx
        && (today in dailyPnl ==> dailyPnl[today] + limits.dailyLossLimit >= 0)
    {
      if plan.inputValue > limits.maxPosition {
        return false;
      }
      if plan.usesFlashLoan && plan.flashLoanValue > limits.maxFlashLoan {
        return false;
      }
      if plan.netProfit < 0 || plan.netProfit < limits.minProfit {
        return false;
      }
      if openTxCount >= limits.maxConcurrentTx {
        return false;
      }
      var pnl := if today in dailyPnl then dailyPnl[today] else 0;
      return !(pnl < 0 && -pnl > limits.dailyLossLimit);
    }

    method SubmittedOne()
      modifies this
      ensures Now() == MarkSubmitted(old(Now()))
    {
      openTxCount := openTxCount + 1;
    }

    method Finalized(realizedProfit: int, today: Day)
      modifies this
      ensures Now() == MarkFinalized(old(Now()), realizedProfit, today)
    {
      var previous := openTxCount;
      if previous == 0 {
        openTxCount := 0;
        return;
      }
      openTxCount := openTxCount - 1;
      dailyPnl := dailyPnl[today := (if today in dailyPnl then dailyPnl[today] else 0) + realizedProfit];
    }

    method FailedSubmission()
      modifies this
      ensures Now() == MarkFailedSubmission(old(Now()))
    {
      var previous := openTxCount;
      if previous == 0 {
        openTxCount := 0;
      } else {
        openTxCount := openTxCount - 1;
      }
    }
  }
}
