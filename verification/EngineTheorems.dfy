/**
 What holds in every state any schedule of concurrent transactions can reach. Each theorem
 follows from serializability and from what one change at a time keeps.
 */
module EngineTheorems {
  import opened Wrappers
  import opened Ledger
  import opened LedgerInvariants
  import opened TransactionEngine
  import opened Serializability

  /** The ledger is the source of truth: each balance is its wallet's signed sum, and every entry
      carries the balance of the prefix that ends with it. */
  lemma LedgerIsTruth(schedule: seq<Action>)
    ensures var s := Run(schedule).store;
      && (forall w :: w in s.wallets ==>
            && s.wallets[w].balance == SignedSum(s.ledger, w)
            && 0 <= s.wallets[w].held <= s.wallets[w].balance)
      && (forall i :: 0 <= i < |s.ledger| ==>
            s.ledger[i].amount > 0 && s.ledger[i].balanceAfter == SignedSum(s.ledger[..i + 1], s.ledger[i].walletId))
  {
    ReachableInv(schedule);
    var s := Run(schedule).store;
    forall w | w in s.wallets
      ensures s.wallets[w].balance == SignedSum(s.ledger, w) && 0 <= s.wallets[w].held <= s.wallets[w].balance
    {
      assert Balanced(s, w);
    }
    forall i | 0 <= i < |s.ledger|
      ensures s.ledger[i].amount > 0 && s.ledger[i].balanceAfter == SignedSum(s.ledger[..i + 1], s.ledger[i].walletId)
    {
      assert EntryInOrder(s, i);
    }
  }

  /** Conservation: whatever aborted on the way, a currency's balances are what came in by deposit
      credits, less withdrawal debits, less the fees of completed internal transfers. */
  lemma MoneyIsConserved(schedule: seq<Action>, c: Currency)
    ensures var s := Run(schedule).store;
      TotalBalance(s, c) == CategoryTotal(s.ledger, s.wallets, DepositEntry, c)
                          - CategoryTotal(s.ledger, s.wallets, WithdrawalEntry, c)
                          - TotalInternalFees(s, c)
  {
    ReachableInv(schedule);
    assert Conserved(Run(schedule).store, c);
  }

  /** Atomicity across tables: an internal transfer that is visible at all is COMPLETED, with exactly one
      debit of amount + fee on its source and one credit of amount on its destination. */
  lemma InternalTransfersAreAtomic(schedule: seq<Action>, id: TransferId)
    requires id in Run(schedule).store.transfers && Run(schedule).store.transfers[id].kind == InternalTransfer
    ensures var s := Run(schedule).store; var row := s.transfers[id];
      && row.status == Completed && row.source.Some? && row.destination.Some? && row.source != row.destination
      && Legs(s.ledger, id) ==
           [Leg(row.source.value, DebitEntry, InternalDebit, row.amount + row.fee),
            Leg(row.destination.value, CreditEntry, InternalCredit, row.amount)]
  {
    ReachableInv(schedule);
    var s := Run(schedule).store;
    assert RowSettled(s, s.transfers[id], Legs(s.ledger, id));
  }

  /** A withdrawal row always has exactly the one debit its own transaction made. */
  lemma WithdrawalsAreDebitedOnce(schedule: seq<Action>, id: TransferId)
    requires id in Run(schedule).store.transfers && Run(schedule).store.transfers[id].kind == Withdrawal
    ensures var s := Run(schedule).store; var row := s.transfers[id];
      && row.source.Some?
      && Legs(s.ledger, id) == [Leg(row.source.value, DebitEntry, WithdrawalEntry, row.amount + row.fee)]
  {
    ReachableInv(schedule);
    var s := Run(schedule).store;
    assert RowSettled(s, s.transfers[id], Legs(s.ledger, id));
  }

  /** A transfer or withdrawal that is still running, or was rolled back, has no row and no entry. */
  lemma UncommittedLeavesNothing(schedule: seq<Action>, r: Request)
    requires Inserts(r)
    requires r in Run(schedule).aborted || exists tx :: tx in Run(schedule).txs && Run(schedule).txs[tx].request == r
    ensures r.transferId !in Run(schedule).store.transfers
    ensures Legs(Run(schedule).store.ledger, r.transferId) == []
  {
    ReachableInv(schedule);
    var s := Run(schedule);
    if r in s.aborted {
      var i :| 0 <= i < |s.aborted| && s.aborted[i] == r;
      assert Discarded(s, r.transferId);
    } else {
      var tx :| tx in s.txs && s.txs[tx].request == r;
      assert FreshId(s, r.transferId);
    }
    NoEntriesNoLegs(s.store.ledger, r.transferId);
  }

  /** Rolling back, by an error at any statement or as a deadlock victim, changes no table, frees every
      lock, and leaves a transfer or withdrawal without row and entry. */
  lemma RollbackChangesNothing(schedule: seq<Action>, tx: TxId)
    requires Enabled(Run(schedule), Rollback(tx))
    ensures var s, s' := Run(schedule), Take(Run(schedule), Rollback(tx)); var r := s.txs[tx].request;
      && s'.store == s.store && s'.log == s.log
      && (forall res :: res in s'.locks ==> s'.locks[res] != tx)
      && (Inserts(r) ==> r.transferId !in s'.store.transfers && Legs(s'.store.ledger, r.transferId) == [])
  {
    if Inserts(Run(schedule).txs[tx].request) {
      UncommittedLeavesNothing(schedule, Run(schedule).txs[tx].request);
    }
  }

  /** What a service checked without locks before it began still holds when its transaction commits, whatever
      happened in between, and the whole transaction then succeeds. */
  lemma ChecksHoldAtCommit(schedule: seq<Action>, tx: TxId)
    requires Enabled(Run(schedule), Commit(tx))
    ensures var s := Run(schedule);
      ValidationError(s.store, s.txs[tx].request).None? && Execute(s.store, s.txs[tx].request).Success?
  {
    ReachableInv(schedule);
    CommitActsAlone(schedule, tx);
  }

  // ----- frozen and closed wallets -----

  /** A frozen wallet takes credits: only a closed one refuses them. */
  lemma FrozenWalletsTakeCredits(s: Store, p: Posting)
    requires p.kind == CreditEntry && p.walletId in s.wallets && p.amount > 0
    ensures Post(s, p).Success? <==> s.wallets[p.walletId].status != Closed
    ensures Post(s, p).Success? ==>
      Post(s, p).value.wallets[p.walletId].balance == s.wallets[p.walletId].balance + p.amount
  {
  }

  ghost predicate BalanceKept(s: Store, s': Store, w: WalletId)
    requires w in s.wallets && w in s'.wallets
  {
    && s.wallets[w].balance <= s'.wallets[w].balance
    && (s.wallets[w].status == Closed ==> s.wallets[w].balance == s'.wallets[w].balance)
  }

  lemma PostOnInactive(s: Store, p: Posting, w: WalletId)
    requires Post(s, p).Success? && w in s.wallets && s.wallets[w].status != Active
    ensures BalanceKept(s, Post(s, p).value, w) && Post(s, p).value.wallets[w].status == s.wallets[w].status
  {
  }

  lemma ExecuteOnInactive(s: Store, r: Request, w: WalletId)
    requires Execute(s, r).Success? && w in s.wallets && s.wallets[w].status != Active
    ensures w in Execute(s, r).value.wallets && BalanceKept(s, Execute(s, r).value, w)
  {
    match r
    case InternalRequest(id, _, _, _, _, _, _) =>
      var inserted := InsertTransfer(s, id, InternalRow(r, Processing));
      PostOnInactive(inserted, DebitPosting(r), w);
      PostOnInactive(Post(inserted, DebitPosting(r)).value, CreditPosting(r), w);
    case WithdrawalRequest(id, _, _, _, _, _) =>
      PostOnInactive(InsertTransfer(s, id, WithdrawalRow(r)), DebitPosting(r), w);
    case DepositCredit(_, _, _, _) =>
      PostOnInactive(s, CreditPosting(r), w);
  }

  lemma StepOnInactive(s: State, a: Action, w: WalletId)
    requires EngineInv(s) && Enabled(s, a) && w in s.store.wallets && s.store.wallets[w].status != Active
    ensures w in Take(s, a).store.wallets && BalanceKept(s.store, Take(s, a).store, w)
  {
    if a.Commit? {
      CommitExecutes(s, a.tx);
      ExecuteOnInactive(s.store, s.txs[a.tx].request, w);
    }
  }

  ghost predicate StaysInactive(schedule: seq<Action>, from: nat, w: WalletId) {
    forall k :: from <= k <= |schedule| ==>
      w in Run(schedule[..k]).store.wallets && Run(schedule[..k]).store.wallets[w].status != Active
  }

  /** While a wallet stays frozen, in any run, its balance never falls - also not by a debit begun before. */
  lemma {:induction false} FrozenBalanceNeverFalls(schedule: seq<Action>, from: nat, w: WalletId)
    requires from <= |schedule| && StaysInactive(schedule, from, w)
    ensures w in Run(schedule[..from]).store.wallets && w in Run(schedule).store.wallets
    ensures Run(schedule[..from]).store.wallets[w].balance <= Run(schedule).store.wallets[w].balance
    decreases |schedule|
  {
    assert schedule[..|schedule|] == schedule;
    if from < |schedule| {
      var before := schedule[..|schedule| - 1];
      forall k | from <= k <= |before|
        ensures w in Run(before[..k]).store.wallets && Run(before[..k]).store.wallets[w].status != Active
      {
        assert before[..k] == schedule[..k];
      }
      FrozenBalanceNeverFalls(before, from, w);
      assert before[..from] == schedule[..from] && before[..|before|] == before;
      ReachableInv(before);
      if Enabled(Run(before), schedule[|schedule| - 1]) {
        StepOnInactive(Run(before), schedule[|schedule| - 1], w);
      }
    }
  }

  // ----- ledger order is lock order -----

  lemma RowEventPostsNothing(s: Store, e: Event)
    requires !e.Committed? && ApplyEvent(s, e).Success?
    ensures ApplyEvent(s, e).value.ledger == s.ledger
  {
  }

  lemma CommitPostsItsOwnWallets(s: State, tx: TxId, holder: TxId, w: WalletId)
    requires tx in s.txs && WorkIsCurrent(s, tx) && LocksExact(s.txs, s.locks) && tx != holder
    requires WalletRow(w) in s.locks && s.locks[WalletRow(w)] == holder
    ensures forall i :: 0 <= i < |s.txs[tx].writes.entries| ==> s.txs[tx].writes.entries[i].walletId != w
  {
    WritesOnlyLockedRows(s.store, s.txs[tx].request, s.txs[tx].pc);
  }

  lemma HeldWalletIsNotPosted(s: State, a: Action, holder: TxId, w: WalletId)
    requires LocksExact(s.txs, s.locks) && forall tx :: tx in s.txs ==> WorkIsCurrent(s, tx)
    requires WalletRow(w) in s.locks && s.locks[WalletRow(w)] == holder && Enabled(s, a) && a != Commit(holder)
    ensures var before, after := s.store.ledger, Take(s, a).store.ledger;
      before <= after && forall i :: |before| <= i < |after| ==> after[i].walletId != w
  {
    match a
    case Autocommit(e) => RowEventPostsNothing(s.store, e);
    case Commit(tx) => CommitPostsItsOwnWallets(s, tx, holder, w);
    case _ =>
  }

  /** While a transaction holds a wallet's row, only its own commit adds entries of that wallet: each
      wallet's entries stand in the order its row was locked. */
  lemma EntriesFollowLockOrder(schedule: seq<Action>, a: Action, holder: TxId, w: WalletId)
    requires WalletRow(w) in Run(schedule).locks && Run(schedule).locks[WalletRow(w)] == holder
    requires Enabled(Run(schedule), a) && a != Commit(holder)
    ensures var before, after := Run(schedule).store.ledger, Take(Run(schedule), a).store.ledger;
      before <= after && forall i :: |before| <= i < |after| ==> after[i].walletId != w
  {
    ReachableInv(schedule);
    HeldWalletIsNotPosted(Run(schedule), a, holder, w);
  }
}
