/** Nonce bookkeeping (`src/execution/nonce_manager.rs`). Clock readings and node replies
    are parameters; locks are left out. */
module NonceManager {
  import opened Common

  type TxHash = nat

  datatype NonceState = Reserved | Submitted(txHash: TxHash, submittedAt: nat) | Included | Dropped

  datatype Pending = Pending(nonce: nat, txHash: TxHash, submittedAt: nat, maxPriorityFee: nat, maxFee: nat)

  datatype Book = Book(next: nat, states: map<nat, NonceState>, pending: map<nat, Pending>)

  const EMPTY: Book := Book(0, map[], map[])

  /** The node's answer about one transaction. */
  datatype ReceiptStatus = Found(success: bool) | NotFound | StatusError

  // ----- one step of each method, as a function of the book

  function Reserve(b: Book): Book {
    Book(b.next + 1, b.states[b.next := Reserved], b.pending)
  }

  function MarkSubmitted(b: Book, p: Pending): Book {
    Book(b.next, b.states[p.nonce := Submitted(p.txHash, p.submittedAt)], b.pending[p.nonce := p])
  }

  function Settle(b: Book, nonce: nat, state: NonceState): Book {
    Book(b.next, b.states[nonce := state], b.pending - {nonce})
  }

  function Cancel(b: Book, nonce: nat): Book {
    if nonce in b.states && b.states[nonce].Submitted? then Settle(b, nonce, Dropped) else b
  }

  function Sync(b: Book, onchain: nat): Book {
    Book(Max(b.next, onchain), b.states, b.pending)
  }

  /** What a receipt reply makes of a pending nonce, if anything. */
  function ReceiptUpdate(status: ReceiptStatus): Option<NonceState> {
    match status
    case Found(true) => Some(Included)
    case Found(false) => Some(Dropped)
    case NotFound => None
    case StatusError => Some(Dropped)
  }

  function UpdateFor(b: Book, onchain: nat, statusOf: TxHash -> ReceiptStatus, n: nat): Option<NonceState> {
    if n in b.pending && b.pending[n].nonce == n && n >= onchain then ReceiptUpdate(statusOf(b.pending[n].txHash))
    else None
  }

  /** `reconcile` after restart: everything below the chain's nonce is included, pending
      nonces above it follow their receipts. */
  function Reconcile(b: Book, onchain: nat, statusOf: TxHash -> ReceiptStatus): Book {
    Book(Max(b.next, onchain),
         map n | n in b.states :: 
           if UpdateFor(b, onchain, statusOf, n).Some? then UpdateFor(b, onchain, statusOf, n).value
           else if n < onchain then Included else b.states[n],
         map n | n in b.pending && !(n < onchain && n in b.states) && UpdateFor(b, onchain, statusOf, n).None? :: b.pending[n])
  }

  // ----- the manager

  class NonceManager {
    var nextNonce: nat
    var states: map<nat, NonceState>
    var pendingTxs: map<nat, Pending>

    ghost function Now(): Book
      reads this
    {
      Book(nextNonce, states, pendingTxs)
    }

    constructor ()
      ensures Now() == EMPTY
    {
      nextNonce, states, pendingTxs := 0, map[], map[];
    }

    /** `sync`, once the node has answered. */
    method SyncNonce(onchain: nat)
      modifies this
      ensures Now() == Sync(old(Now()), onchain)
    {
      if onchain > nextNonce {
        nextNonce := onchain;
      }
    }

    method ReserveNonce() returns (nonce: nat)
      modifies this
      ensures nonce == old(nextNonce) && Now() == Reserve(old(Now()))
    {
      nonce := nextNonce;
      nextNonce := nextNonce + 1;
      states := states[nonce := Reserved];
    }

    method SetSubmitted(nonce: nat, txHash: TxHash, at: nat, maxPriorityFee: nat, maxFee: nat)
      modifies this
      ensures Now() == MarkSubmitted(old(Now()), Pending(nonce, txHash, at, maxPriorityFee, maxFee))
    {
      states := states[nonce := Submitted(txHash, at)];
      pendingTxs := pendingTxs[nonce := Pending(nonce, txHash, at, maxPriorityFee, maxFee)];
    }

    method SetIncluded(nonce: nat)
      modifies this
      ensures Now() == Settle(old(Now()), nonce, Included)
    {
      states := states[nonce := Included];
      pendingTxs := pendingTxs - {nonce};
    }

    method SetDropped(nonce: nat)
      modifies this
      ensures Now() == Settle(old(Now()), nonce, Dropped)
    {
      states := states[nonce := Dropped];
      pendingTxs := pendingTxs - {nonce};
    }

    method CancelNonce(nonce: nat) returns (cancelled: bool)
      modifies this
      ensures Now() == Cancel(old(Now()), nonce)
      ensures cancelled <==> nonce in old(states) && old(states)[nonce].Submitted?
    {
      if nonce in states && states[nonce].Submitted? {
        SetDropped(nonce);
        return true;
      }
      return false;
    }

    /** The first half of `reconcile`: ask for the receipts of pending nonces the chain has not passed. */
    method CollectReceiptUpdates(onchain: nat, statusOf: TxHash -> ReceiptStatus) returns (updates: map<nat, NonceState>)
      requires BookValid(Now())
      ensures forall n :: n in updates <==> UpdateFor(Now(), onchain, statusOf, n).Some?
      ensures forall n :: n in updates ==> Some(updates[n]) == UpdateFor(Now(), onchain, statusOf, n)
    {
      updates := map[];
      var unchecked := pendingTxs.Keys;
      while unchecked != {}
        invariant unchecked <= pendingTxs.Keys
        invariant forall n :: n in updates <==> n !in unchecked && UpdateFor(Now(), onchain, statusOf, n).Some?
        invariant forall n :: n in updates ==> Some(updates[n]) == UpdateFor(Now(), onchain, statusOf, n)
        decreases |unchecked|
      {
        var n :| n in unchecked;
        unchecked := unchecked - {n};
        if n >= onchain {
          var update := ReceiptUpdate(statusOf(pendingTxs[n].txHash));
          if update.Some? {
            updates := updates[n := update.value];
          }
        }
      }
    }

    /** `reconcile`, once the node has answered the transaction count. */
    method ReconcileAll(onchain: nat, statusOf: TxHash -> ReceiptStatus)
      requires BookValid(Now())
      modifies this
      ensures Now() == Reconcile(old(Now()), onchain, statusOf)
    {
      ghost var was := Now();
      var current := nextNonce;
      var updates := CollectReceiptUpdates(onchain, statusOf);
      var passed := set n | n in states && n < onchain;
      states := map n | n in states :: if n < onchain then Included else states[n];
      pendingTxs := pendingTxs - passed;
      states := states + updates;
      pendingTxs := pendingTxs - updates.Keys;
      if current < onchain {
        nextNonce := onchain;
      }
      ReconcileInSteps(was, onchain, statusOf, updates);
    }
  }

  /** Included below the chain's nonce first and receipts after it is `Reconcile`. */
  lemma ReconcileInSteps(b: Book, onchain: nat, statusOf: TxHash -> ReceiptStatus, updates: map<nat, NonceState>)
    requires BookValid(b)
    requires forall n :: n in updates <==> UpdateFor(b, onchain, statusOf, n).Some?
    requires forall n :: n in updates ==> Some(updates[n]) == UpdateFor(b, onchain, statusOf, n)
    ensures (map n | n in b.states :: if n < onchain then Included else b.states[n]) + updates
         == Reconcile(b, onchain, statusOf).states
    ensures b.pending - (set n | n in b.states && n < onchain) - updates.Keys
         == Reconcile(b, onchain, statusOf).pending
  {
    assert forall n :: n in updates ==> n in b.states;
  }

  // ----- what every method keeps

  /** Known nonces were handed out, and the pending entries are exactly the submitted ones. */
  ghost predicate BookValid(b: Book) {
    && (forall n :: n in b.states ==> n < b.next)
    && (forall n :: n in b.pending <==> n in b.states && b.states[n].Submitted?)
    && (forall n :: n in b.pending ==>
          b.pending[n].nonce == n && b.states[n] == Submitted(b.pending[n].txHash, b.pending[n].submittedAt))
  }

  ghost predicate NoneReserved(b: Book) {
    forall n :: n in b.states ==> !b.states[n].Reserved?
  }

  lemma ReserveIsFresh(b: Book)
    requires BookValid(b)
    ensures BookValid(Reserve(b))
    ensures b.next !in b.states && Reserve(b).states[b.next] == Reserved
  {}

  /** A fresh nonce is pending from its submission until it is settled; the other pending entries
      stay as they are throughout. */
  lemma SubmissionRoundTrip(b: Book, p: Pending, state: NonceState)
    requires BookValid(b) && p.nonce == b.next && (state == Included || state == Dropped)
    ensures var sent := MarkSubmitted(Reserve(b), p);
      && BookValid(sent) && sent.pending.Keys == b.pending.Keys + {p.nonce} && p.nonce !in b.pending
      && sent.pending[p.nonce] == p && sent.states == b.states[p.nonce := Submitted(p.txHash, p.submittedAt)]
      && BookValid(Settle(sent, p.nonce, state)) && Settle(sent, p.nonce, state).pending == b.pending
      && Settle(sent, p.nonce, state).states == b.states[p.nonce := state]
      && sent.next == Settle(sent, p.nonce, state).next == b.next + 1
  {
    assert p.nonce !in b.pending;
    var settled := Settle(MarkSubmitted(Reserve(b), p), p.nonce, state);
    assert settled.pending == b.pending;
    assert settled.states == b.states[p.nonce := state];
  }

  /** Whatever becomes of a fresh nonce, afterwards nothing is left reserved. */
  lemma OutcomeKeepsBook(b: Book, p: Pending)
    requires BookValid(b) && NoneReserved(b) && p.nonce == b.next
    ensures var sent := MarkSubmitted(Reserve(b), p);
      && BookValid(sent) && NoneReserved(sent)
      && BookValid(Settle(sent, p.nonce, Included)) && NoneReserved(Settle(sent, p.nonce, Included))
    ensures BookValid(Settle(Reserve(b), b.next, Dropped)) && NoneReserved(Settle(Reserve(b), b.next, Dropped))
  {
    SubmissionRoundTrip(b, p, Included);
  }

  lemma MaintenanceKeepsBook(b: Book, onchain: nat, nonce: nat, statusOf: TxHash -> ReceiptStatus)
    requires BookValid(b) && NoneReserved(b)
    ensures BookValid(Sync(b, onchain)) && NoneReserved(Sync(b, onchain))
    ensures BookValid(Cancel(b, nonce)) && NoneReserved(Cancel(b, nonce))
    ensures BookValid(Reconcile(b, onchain, statusOf)) && NoneReserved(Reconcile(b, onchain, statusOf))
  {}

  /** Syncing moves the next nonce up to the chain's when it is behind, never back, and touches nothing else. */
  lemma SyncCatchesUp(b: Book, onchain: nat)
    ensures var t := Sync(b, onchain);
      && t.next >= b.next && t.next >= onchain && (t.next == b.next || t.next == onchain)
      && t.states == b.states && t.pending == b.pending
  {}

  /** Cancelling drops a submitted nonce and only that; any other nonce is left as it is. */
  lemma CancelDropsSubmitted(b: Book, nonce: nat)
    requires BookValid(b)
    ensures var t := Cancel(b, nonce);
      && t.next == b.next
      && (nonce in b.pending ==> t.states == b.states[nonce := Dropped] && t.pending == b.pending - {nonce})
      && (nonce !in b.pending ==> t == b)
  {}

  /** After reconciling, what the chain has passed is included, a pending nonce it has not passed follows its
      receipt (a receipt that cannot be read drops it), every other one is as before, and none is new. */
  lemma ReconcileDecides(b: Book, onchain: nat, statusOf: TxHash -> ReceiptStatus, n: nat)
    requires BookValid(b)
    ensures var t := Reconcile(b, onchain, statusOf);
      && t.next >= b.next && t.next >= onchain && (t.next == b.next || t.next == onchain)
      && (n in t.states <==> n in b.states)
      && (n in b.states && n < onchain ==> t.states[n] == Included)
      && (n in b.states && n >= onchain && n !in b.pending ==> t.states[n] == b.states[n])
      && (n in b.pending && n >= onchain ==>
            match statusOf(b.pending[n].txHash)
            case Found(success) => t.states[n] == (if success then Included else Dropped)
            case NotFound => t.states[n] == b.states[n] && n in t.pending && t.pending[n] == b.pending[n]
            case StatusError => t.states[n] == Dropped)
  {}

  /** After reconciling, a nonce is still pending exactly when it was pending, the chain has
      not passed it and its receipt was not found. */
  lemma ReconcileLeavesUnseen(b: Book, onchain: nat, statusOf: TxHash -> ReceiptStatus, n: nat)
    requires BookValid(b)
    ensures n in Reconcile(b, onchain, statusOf).pending <==>
      n in b.pending && n >= onchain && statusOf(b.pending[n].txHash).NotFound?
  {}
}
