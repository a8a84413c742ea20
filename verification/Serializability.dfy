/**
 Strict two-phase locking makes every schedule equal to running the committed transactions
 one at a time, in commit order.
 */
module Serializability {
  import opened Wrappers
  import opened Ledger
  import opened LedgerInvariants
  import opened TransactionEngine

  // ----- the rows a transaction has locked so far -----

  function NeedSet(statement: Statement): set<Resource> {
    match Needs(statement)
    case None => {}
    case Some(resource) => {resource}
  }

  function Held(r: Request, pc: nat): set<Resource> {
    if pc == 0 then {}
    else Held(r, pc - 1) + if pc <= |Program(r)| then NeedSet(Program(r)[pc - 1]) else {}
  }

  /** A balance is only written right after its row was locked. */
  lemma WriteFollowsLock(r: Request, k: nat)
    requires k < |Program(r)| && Program(r)[k].WritePosting?
    ensures k > 0 && Program(r)[k - 1] == LockWallet(Program(r)[k].posting)
  {
  }

  lemma {:induction false} WritesOnlyLockedRows(s: Store, r: Request, n: nat)
    requires n <= |Program(r)| && Prefix(s, r, n).Success?
    ensures forall w :: w in Prefix(s, r, n).value.balances ==> WalletRow(w) in Held(r, n)
    ensures forall i :: 0 <= i < |Prefix(s, r, n).value.entries| ==>
      WalletRow(Prefix(s, r, n).value.entries[i].walletId) in Held(r, n)
  {
    if n > 0 {
      WritesOnlyLockedRows(s, r, n - 1);
      if Program(r)[n - 1].WritePosting? {
        WriteFollowsLock(r, n - 1);
        assert Needs(Program(r)[n - 2]) == Some(WalletRow(Program(r)[n - 1].posting.walletId));
      }
    }
  }

  /** A transaction's work so far depends only on the wallet rows it holds. */
  lemma {:induction false} PrefixFrame(s: Store, s': Store, r: Request, n: nat)
    requires n <= |Program(r)| && Prefix(s, r, n).Success?
    requires forall w :: WalletRow(w) in Held(r, n) && w in s.wallets ==>
      w in s'.wallets && s'.wallets[w] == s.wallets[w]
    ensures Prefix(s', r, n) == Prefix(s, r, n)
  {
    if n > 0 {
      PrefixFrame(s, s', r, n - 1);
    }
  }

  // ----- the engine invariant -----

  ghost predicate WorkIsCurrent(s: State, tx: TxId)
    requires tx in s.txs
  {
    var t := s.txs[tx];
    t.pc <= |Program(t.request)| && Prefix(s.store, t.request, t.pc) == Success(t.writes)
  }

  /** A row is locked by exactly the transaction that has passed a statement needing it. */
  ghost predicate LocksExact(txs: map<TxId, Tx>, locks: map<Resource, TxId>) {
    && (forall res :: res in locks ==> locks[res] in txs)
    && (forall tx, res :: tx in txs ==>
          (res in Held(txs[tx].request, txs[tx].pc) <==> res in locks && locks[res] == tx))
  }

  ghost predicate IdsFresh(s: State) {
    && s.store.transfers.Keys <= s.used
    && (forall tx :: tx in s.txs && Inserts(s.txs[tx].request) ==> FreshId(s, s.txs[tx].request.transferId))
    && (forall tx, tx' :: tx in s.txs && tx' in s.txs && tx != tx' && Inserts(s.txs[tx].request)
          && Inserts(s.txs[tx'].request)
          ==> s.txs[tx].request.transferId != s.txs[tx'].request.transferId)
    && (forall i :: 0 <= i < |s.aborted| && Inserts(s.aborted[i]) ==> Discarded(s, s.aborted[i].transferId))
  }

  predicate FreshId(s: State, id: TransferId) {
    id in s.used && id !in s.store.transfers
  }

  ghost predicate Discarded(s: State, id: TransferId) {
    FreshId(s, id)
    && forall tx :: tx in s.txs && Inserts(s.txs[tx].request) ==> s.txs[tx].request.transferId != id
  }

  ghost predicate EngineInv(s: State) {
    && (forall tx :: tx in s.txs ==> WorkIsCurrent(s, tx))
    && (forall tx :: tx in s.txs ==> ValidationError(s.store, s.txs[tx].request).None?)
    && LocksExact(s.txs, s.locks)
    && IdsFresh(s)
    && Replay(s.log) == Success(s.store)
    && StoreInv(s.store)
  }

  // ----- every action keeps the invariant -----

  lemma TakeKeeps(s: State, a: Action)
    requires EngineInv(s) && Enabled(s, a)
    ensures EngineInv(Take(s, a))
  {
    match a
    case Begin(tx, r) => BeginKeeps(s, tx, r);
    case Advance(tx) => AdvanceKeeps(s, tx);
    case Commit(tx) => CommitKeepsInv(s, tx);
    case Rollback(tx) => ForgetKeeps(s, tx);
    case Autocommit(e) => AutocommitKeeps(s, e);
  }

  lemma LocksAfterBegin(txs: map<TxId, Tx>, locks: map<Resource, TxId>, tx: TxId, r: Request)
    requires LocksExact(txs, locks) && tx !in txs
    ensures LocksExact(txs[tx := Tx(r, 0, NO_WRITES)], locks)
  {
    assert Held(r, 0) == {};
  }

  lemma LocksAfterRelease(txs: map<TxId, Tx>, locks: map<Resource, TxId>, tx: TxId)
    requires LocksExact(txs, locks) && tx in txs
    ensures LocksExact(txs - {tx}, Release(locks, tx))
  {
  }

  lemma LocksAfterAdvance(txs: map<TxId, Tx>, locks: map<Resource, TxId>, tx: TxId, writes: Writes)
    requires LocksExact(txs, locks) && tx in txs && txs[tx].pc < |Program(txs[tx].request)|
    requires Available(locks, Needs(Program(txs[tx].request)[txs[tx].pc]), tx)
    ensures LocksExact(txs[tx := Tx(txs[tx].request, txs[tx].pc + 1, writes)],
                       Acquire(locks, Needs(Program(txs[tx].request)[txs[tx].pc]), tx))
  {
    var t := txs[tx];
    var statement := Program(t.request)[t.pc];
    assert Held(t.request, t.pc + 1) == Held(t.request, t.pc) + NeedSet(statement);
  }

  /** Ids of the remaining transactions are untouched when only the running set shrinks or advances. */
  lemma IdsAfter(s: State, s': State)
    requires IdsFresh(s) && s'.store == s.store && s'.used == s.used && s'.aborted == s.aborted
    requires forall tx :: tx in s'.txs ==> tx in s.txs && s'.txs[tx].request == s.txs[tx].request
    ensures IdsFresh(s')
  {
    forall i | 0 <= i < |s'.aborted| && Inserts(s'.aborted[i]) ensures Discarded(s', s'.aborted[i].transferId) {
      assert Discarded(s, s.aborted[i].transferId);
    }
    forall tx | tx in s'.txs && Inserts(s'.txs[tx].request) ensures FreshId(s', s'.txs[tx].request.transferId) {
      assert FreshId(s, s.txs[tx].request.transferId);
    }
  }

  lemma IdsAfterForget(s: State, tx: TxId)
    requires IdsFresh(s) && tx in s.txs
    ensures IdsFresh(Forget(s, tx))
  {
    var s' := Forget(s, tx);
    var shrunk := s.(txs := s.txs - {tx});
    IdsAfter(s, shrunk);
    if Inserts(s.txs[tx].request) {
      assert FreshId(s, s.txs[tx].request.transferId);
      assert Discarded(s', s.txs[tx].request.transferId);
    }
    forall i | 0 <= i < |s'.aborted| && Inserts(s'.aborted[i]) ensures Discarded(s', s'.aborted[i].transferId) {
      if i < |s.aborted| { assert Discarded(shrunk, s.aborted[i].transferId); }
    }
    forall u | u in s'.txs && Inserts(s'.txs[u].request) ensures FreshId(s', s'.txs[u].request.transferId) {
      assert FreshId(shrunk, s.txs[u].request.transferId);
    }
  }

  lemma IdsAfterBegin(s: State, tx: TxId, r: Request)
    requires IdsFresh(s) && Enabled(s, Begin(tx, r))
    ensures IdsFresh(Take(s, Begin(tx, r)))
  {
    var s' := Take(s, Begin(tx, r));
    forall i | 0 <= i < |s'.aborted| && Inserts(s'.aborted[i]) ensures Discarded(s', s'.aborted[i].transferId) {
      assert Discarded(s, s.aborted[i].transferId);
    }
    forall u | u in s'.txs && Inserts(s'.txs[u].request) ensures FreshId(s', s'.txs[u].request.transferId) {
      if u != tx { assert FreshId(s, s.txs[u].request.transferId); }
    }
    forall u | u in s.txs && Inserts(s.txs[u].request) ensures s.txs[u].request.transferId in s.used {
      assert FreshId(s, s.txs[u].request.transferId);
    }
  }

  lemma BeginKeeps(s: State, tx: TxId, r: Request)
    requires EngineInv(s) && Enabled(s, Begin(tx, r))
    ensures EngineInv(Take(s, Begin(tx, r)))
  {
    var s' := Take(s, Begin(tx, r));
    forall t | t in s'.txs ensures WorkIsCurrent(s', t) {
      if t != tx { assert WorkIsCurrent(s, t); }
    }
    LocksAfterBegin(s.txs, s.locks, tx, r);
    IdsAfterBegin(s, tx, r);
  }

  lemma ForgetKeeps(s: State, tx: TxId)
    requires EngineInv(s) && tx in s.txs
    ensures EngineInv(Forget(s, tx))
  {
    var s' := Forget(s, tx);
    forall t | t in s'.txs ensures WorkIsCurrent(s', t) { assert WorkIsCurrent(s, t); }
    LocksAfterRelease(s.txs, s.locks, tx);
    IdsAfterForget(s, tx);
  }

  lemma WorkAfterAdvance(store: Store, t: Tx)
    requires t.pc < |Program(t.request)| && Prefix(store, t.request, t.pc) == Success(t.writes)
    ensures Prefix(store, t.request, t.pc + 1) == Perform(store, t.writes, Program(t.request)[t.pc])
  {
  }

  lemma AdvanceKeeps(s: State, tx: TxId)
    requires EngineInv(s) && Enabled(s, Advance(tx))
    ensures EngineInv(Take(s, Advance(tx)))
  {
    var s' := Take(s, Advance(tx));
    match Perform(s.store, s.txs[tx].writes, NextStatement(s, tx))
    case Failure(_) =>
      assert s' == Forget(s, tx);
      ForgetKeeps(s, tx);
    case Success(writes) =>
      assert s' == MoveOn(s, tx, writes);
      assert WorkIsCurrent(s, tx);
      OwnWorkMovesOn(s, tx, writes);
      LocksMoveOn(s, tx, writes);
      MoveOnKeeps(s, tx, writes);
  }

  lemma OwnWorkMovesOn(s: State, tx: TxId, writes: Writes)
    requires Unfinished(s, tx) && WorkIsCurrent(s, tx)
    requires Perform(s.store, s.txs[tx].writes, NextStatement(s, tx)) == Success(writes)
    ensures WorkIsCurrent(MoveOn(s, tx, writes), tx)
  {
    WorkAfterAdvance(s.store, s.txs[tx]);
  }

  lemma LocksMoveOn(s: State, tx: TxId, writes: Writes)
    requires Enabled(s, Advance(tx)) && LocksExact(s.txs, s.locks)
    ensures LocksExact(MoveOn(s, tx, writes).txs, MoveOn(s, tx, writes).locks)
  {
    LocksAfterAdvance(s.txs, s.locks, tx, writes);
  }

  lemma MoveOnKeeps(s: State, tx: TxId, writes: Writes)
    requires EngineInv(s) && Unfinished(s, tx)
    requires var s' := MoveOn(s, tx, writes); WorkIsCurrent(s', tx) && LocksExact(s'.txs, s'.locks)
    ensures EngineInv(MoveOn(s, tx, writes))
  {
    var s' := MoveOn(s, tx, writes);
    forall u | u in s'.txs ensures WorkIsCurrent(s', u) {
      if u != tx { assert WorkIsCurrent(s, u); }
    }
    IdsAfter(s, s');
  }

  lemma FinishedIsExecuted(store: Store, t: Tx)
    requires t.pc == |Program(t.request)| && Prefix(store, t.request, t.pc) == Success(t.writes)
    requires Inserts(t.request) <==> t.request.transferId !in store.transfers
    ensures Execute(store, t.request) == Success(Publish(store, t.writes))
  {
    ProgramIsExecute(store, t.request);
  }

  lemma OwnRowKnown(s: State, tx: TxId)
    requires IdsFresh(s) && tx in s.txs && ValidationError(s.store, s.txs[tx].request).None?
    ensures Inserts(s.txs[tx].request) <==> s.txs[tx].request.transferId !in s.store.transfers
  {
    assert Inserts(s.txs[tx].request) ==> FreshId(s, s.txs[tx].request.transferId);
  }

  lemma CommitExecutes(s: State, tx: TxId)
    requires EngineInv(s) && Enabled(s, Commit(tx))
    ensures Execute(s.store, s.txs[tx].request) == Success(Publish(s.store, s.txs[tx].writes))
    ensures Inserts(s.txs[tx].request) <==> s.txs[tx].request.transferId !in s.store.transfers
  {
    assert WorkIsCurrent(s, tx);
    OwnRowKnown(s, tx);
    FinishedIsExecuted(s.store, s.txs[tx]);
  }

  lemma CommitPublishes(s: State, tx: TxId)
    requires EngineInv(s) && Enabled(s, Commit(tx))
    ensures ApplyEvent(s.store, Committed(s.txs[tx].request)) == Success(Publish(s.store, s.txs[tx].writes))
  {
    CommitExecutes(s, tx);
    ExecutedIsApplied(s.store, s.txs[tx].request, Publish(s.store, s.txs[tx].writes));
  }

  lemma ExecutedIsApplied(store: Store, r: Request, after: Store)
    requires Execute(store, r) == Success(after) && (Inserts(r) ==> r.transferId !in store.transfers)
    ensures ApplyEvent(store, Committed(r)) == Success(after)
  {
  }

  /** Transactions still running keep their work when the rows they hold do not change. */
  lemma OthersUnaffected(s: State, tx: TxId, store: Store)
    requires tx in s.txs && WorkIsCurrent(s, tx)
    requires WalletsPersist(s.store, store) && RowsPersist(s.store, store)
      && ValidationError(s.store, s.txs[tx].request).None?
    requires forall w :: WalletRow(w) in Held(s.txs[tx].request, s.txs[tx].pc) && w in s.store.wallets
               ==> store.wallets[w] == s.store.wallets[w]
    ensures s.txs[tx].pc <= |Program(s.txs[tx].request)|
    ensures Prefix(store, s.txs[tx].request, s.txs[tx].pc) == Success(s.txs[tx].writes)
    ensures ValidationError(store, s.txs[tx].request).None?
  {
    PrefixFrame(s.store, store, s.txs[tx].request, s.txs[tx].pc);
    ValidationStable(s.store, store, s.txs[tx].request);
  }

  /** A commit changes only rows its transaction holds, so no row another transaction holds. */
  lemma CommitSparesHeldRows(s: State, tx: TxId, other: TxId, w: WalletId)
    requires EngineInv(s) && Enabled(s, Commit(tx)) && other in s.txs && other != tx
    requires WalletRow(w) in Held(s.txs[other].request, s.txs[other].pc) && w in s.store.wallets
    ensures w in Publish(s.store, s.txs[tx].writes).wallets
    ensures Publish(s.store, s.txs[tx].writes).wallets[w] == s.store.wallets[w]
  {
    assert WorkIsCurrent(s, tx);
    WritesOnlyLockedRows(s.store, s.txs[tx].request, s.txs[tx].pc);
    assert s.locks[WalletRow(w)] == other;
    assert w !in s.txs[tx].writes.balances;
  }

  lemma CommitKeepsInv(s: State, tx: TxId)
    requires EngineInv(s) && Enabled(s, Commit(tx))
    ensures EngineInv(Take(s, Commit(tx)))
  {
    var r := s.txs[tx].request;
    var s' := Take(s, Commit(tx));
    CommitPublishes(s, tx);
    EventPersists(s.store, Committed(r));
    forall u | u in s'.txs ensures WorkIsCurrent(s', u) && ValidationError(s'.store, s'.txs[u].request).None? {
      assert WorkIsCurrent(s, u);
      forall w | WalletRow(w) in Held(s.txs[u].request, s.txs[u].pc) && w in s.store.wallets
        ensures s'.store.wallets[w] == s.store.wallets[w]
      {
        CommitSparesHeldRows(s, tx, u, w);
      }
      OthersUnaffected(s, u, s'.store);
    }
    ReplayAppend(s.log, Committed(r));
    CommitKeeps(s.store, r);
    LocksAfterRelease(s.txs, s.locks, tx);
    CommitKeepsIds(s, tx);
  }

  lemma CommitKeepsIds(s: State, tx: TxId)
    requires EngineInv(s) && Enabled(s, Commit(tx))
    ensures IdsFresh(Take(s, Commit(tx)))
  {
    CommitAddsRow(s, tx);
    IdsAfterCommit(s, tx, Take(s, Commit(tx)));
  }

  lemma CommitAddsRow(s: State, tx: TxId)
    requires EngineInv(s) && Enabled(s, Commit(tx))
    ensures Publish(s.store, s.txs[tx].writes).transfers.Keys == s.store.transfers.Keys + {s.txs[tx].request.transferId}
    ensures if Inserts(s.txs[tx].request) then FreshId(s, s.txs[tx].request.transferId)
            else s.txs[tx].request.transferId in s.store.transfers
  {
    CommitExecutes(s, tx);
    ExecuteTables(s.store, s.txs[tx].request);
    assert Inserts(s.txs[tx].request) ==> FreshId(s, s.txs[tx].request.transferId);
  }

  lemma IdsAfterCommit(s: State, tx: TxId, s': State)
    requires IdsFresh(s) && tx in s.txs && s'.txs == s.txs - {tx} && s'.used == s.used && s'.aborted == s.aborted
    requires s'.store.transfers.Keys == s.store.transfers.Keys + {s.txs[tx].request.transferId}
    requires if Inserts(s.txs[tx].request) then FreshId(s, s.txs[tx].request.transferId)
             else s.txs[tx].request.transferId in s.store.transfers
    ensures IdsFresh(s')
  {
    forall i | 0 <= i < |s'.aborted| && Inserts(s'.aborted[i]) ensures Discarded(s', s'.aborted[i].transferId) {
      assert Discarded(s, s.aborted[i].transferId);
    }
    forall u | u in s'.txs && Inserts(s'.txs[u].request) ensures FreshId(s', s'.txs[u].request.transferId) {
      assert FreshId(s, s.txs[u].request.transferId);
    }
  }

  lemma AutocommitSparesHeldRows(s: State, e: Event, w: WalletId)
    requires LocksExact(s.txs, s.locks) && Enabled(s, Autocommit(e)) && WalletRow(w) in s.locks && w in s.store.wallets
    ensures w in ApplyEvent(s.store, e).value.wallets
    ensures ApplyEvent(s.store, e).value.wallets[w] == s.store.wallets[w]
  {
  }

  lemma AutocommitKeepsWork(s: State, e: Event, u: TxId)
    requires LocksExact(s.txs, s.locks) && Enabled(s, Autocommit(e)) && u in s.txs
    requires WorkIsCurrent(s, u) && ValidationError(s.store, s.txs[u].request).None?
    requires WalletsPersist(s.store, ApplyEvent(s.store, e).value) && RowsPersist(s.store, ApplyEvent(s.store, e).value)
    ensures var store := ApplyEvent(s.store, e).value;
      && s.txs[u].pc <= |Program(s.txs[u].request)|
      && Prefix(store, s.txs[u].request, s.txs[u].pc) == Success(s.txs[u].writes)
      && ValidationError(store, s.txs[u].request).None?
  {
    forall w | WalletRow(w) in Held(s.txs[u].request, s.txs[u].pc) && w in s.store.wallets
      ensures ApplyEvent(s.store, e).value.wallets[w] == s.store.wallets[w]
    {
      assert WalletRow(w) in s.locks;
      AutocommitSparesHeldRows(s, e, w);
    }
    OthersUnaffected(s, u, ApplyEvent(s.store, e).value);
  }

  lemma AutocommitKeeps(s: State, e: Event)
    requires EngineInv(s) && Enabled(s, Autocommit(e))
    ensures EngineInv(Take(s, Autocommit(e)))
  {
    var s' := Take(s, Autocommit(e));
    EventPersists(s.store, e);
    forall u | u in s'.txs ensures WorkIsCurrent(s', u) && ValidationError(s'.store, s'.txs[u].request).None? {
      assert WorkIsCurrent(s, u);
      AutocommitKeepsWork(s, e, u);
    }
    ReplayAppend(s.log, e);
    RowEventKeeps(s.store, e);
    AutocommitKeepsIds(s, e);
    HistoryAfterAutocommit(s, e);
  }

  lemma HistoryAfterAutocommit(s: State, e: Event)
    requires Replay(s.log) == Success(s.store) && ApplyEvent(s.store, e).Success?
    ensures Replay(s.log + [e]) == Success(ApplyEvent(s.store, e).value)
  {
    ReplayAppend(s.log, e);
  }

  lemma AutocommitKeepsIds(s: State, e: Event)
    requires EngineInv(s) && Enabled(s, Autocommit(e))
    ensures IdsFresh(Take(s, Autocommit(e)))
  {
    var s' := Take(s, Autocommit(e));
    assert s'.store.transfers.Keys == s.store.transfers.Keys + (if e.DepositInitiated? then {e.transferId} else {});
    forall i | 0 <= i < |s'.aborted| && Inserts(s'.aborted[i]) ensures Discarded(s', s'.aborted[i].transferId) {
      assert Discarded(s, s.aborted[i].transferId);
    }
    forall u | u in s'.txs && Inserts(s'.txs[u].request) ensures FreshId(s', s'.txs[u].request.transferId) {
      assert FreshId(s, s.txs[u].request.transferId);
    }
  }

  // ----- every schedule -----

  lemma {:induction false} ReachableInv(schedule: seq<Action>)
    ensures EngineInv(Run(schedule))
  {
    if schedule == [] {
      EmptyStoreInv();
      assert EngineInv(INITIAL);
    } else {
      var before := schedule[..|schedule| - 1];
      var a := schedule[|schedule| - 1];
      ReachableInv(before);
      if Enabled(Run(before), a) {
        TakeKeeps(Run(before), a);
      }
    }
  }

  /** Serializability: after any interleaving, the tables are what the committed changes,
      run alone and one at a time in commit order, produce - and each of them succeeds. */
  lemma Serializable(schedule: seq<Action>)
    ensures Replay(Run(schedule).log) == Success(Run(schedule).store)
  {
    ReachableInv(schedule);
  }

  /** What a commit publishes is exactly what the whole transaction, run alone at that moment, would do. */
  lemma CommitActsAlone(schedule: seq<Action>, tx: TxId)
    requires Enabled(Run(schedule), Commit(tx))
    ensures var s := Run(schedule);
      Execute(s.store, s.txs[tx].request) == Success(Take(s, Commit(tx)).store)
  {
    ReachableInv(schedule);
    CommitExecutes(Run(schedule), tx);
  }
}
