/**
 What each change of the tables requires and leaves, in the columns of the rows alone; and what that
 means for every schedule of concurrent transactions.
 */
module LedgerOutcomes {
  import opened Wrappers
  import opened Ledger
  import opened LedgerInvariants
  import opened TransactionEngine
  import opened Serializability

  // ----- one posting -----

  /** A debit goes through exactly when the amount is positive and the wallet is the caller's, active and has
      that much available: the whole of it may be spent. */
  lemma DebitSucceedsIff(s: Store, walletId: WalletId, userId: UserId, amount: int, category: Category,
                         transferId: TransferId)
    requires walletId in s.wallets
    ensures var posted := Post(s, Posting(walletId, DebitEntry, userId, amount, category, transferId));
      var wallet := s.wallets[walletId];
      && (posted.Success? <==>
            && amount > 0 && wallet.userId == userId && wallet.status == Active
            && amount <= wallet.balance - wallet.held)
      && (posted.Success? ==> posted.value == Store(
            s.wallets[walletId := Wallet(userId, wallet.currency, wallet.balance - amount, wallet.held, Active)],
            s.ledger + [LedgerEntry(walletId, DebitEntry, category, amount, wallet.balance - amount, transferId)],
            s.transfers))
  {
  }

  /** A credit asks neither for the owner nor for an active wallet. */
  lemma CreditSucceedsIff(s: Store, walletId: WalletId, userId: UserId, amount: int, category: Category,
                          transferId: TransferId)
    requires walletId in s.wallets
    ensures var posted := Post(s, Posting(walletId, CreditEntry, userId, amount, category, transferId));
      var wallet := s.wallets[walletId];
      && (posted.Success? <==> amount > 0 && wallet.status != Closed)
      && (posted.Success? ==> posted.value == Store(
            s.wallets[walletId := wallet.(balance := wallet.balance + amount)],
            s.ledger + [LedgerEntry(walletId, CreditEntry, category, amount, wallet.balance + amount, transferId)],
            s.transfers))
  {
  }

  // ----- the transactions -----

  /** The rows allow a user to spend this much from a wallet. */
  predicate CanSpend(s: Store, walletId: WalletId, userId: UserId, total: int) {
    && total > 0 && walletId in s.wallets && s.wallets[walletId].userId == userId
    && s.wallets[walletId].status == Active && total <= s.wallets[walletId].balance - s.wallets[walletId].held
  }

  predicate CanTransfer(s: Store, r: Request)
    requires r.InternalRequest?
  {
    && r.amount > 0 && r.source != r.destination && CanSpend(s, r.source, r.userId, r.amount + r.fee)
    && r.destination in s.wallets && s.wallets[r.destination].status != Closed
    && s.wallets[r.destination].currency == s.wallets[r.source].currency
  }

  /** The tables after an internal transfer: the source pays amount and fee, the destination gets the amount. */
  function Transferred(s: Store, r: Request): Store
    requires r.InternalRequest? && CanTransfer(s, r)
  {
    var paid := s.wallets[r.source].balance - (r.amount + r.fee);
    var received := s.wallets[r.destination].balance + r.amount;
    Store(
      s.wallets[r.source := s.wallets[r.source].(balance := paid)]
        [r.destination := s.wallets[r.destination].(balance := received)],
      s.ledger + [
        LedgerEntry(r.source, DebitEntry, InternalDebit, r.amount + r.fee, paid, r.transferId),
        LedgerEntry(r.destination, CreditEntry, InternalCredit, r.amount, received, r.transferId)],
      s.transfers[r.transferId := Transfer(
        InternalTransfer, Completed, r.userId, r.currency, r.amount, r.fee, Some(r.source), Some(r.destination))])
  }

  lemma TransferSucceedsIff(s: Store, r: Request)
    requires r.InternalRequest?
    ensures ValidationError(s, r).None? && Execute(s, r).Success? <==> CanTransfer(s, r)
    ensures CanTransfer(s, r) ==> Execute(s, r) == Success(Transferred(s, r))
  {
    if ValidationError(s, r).None? {
      var inserted := InsertTransfer(s, r.transferId, InternalRow(r, Processing));
      DebitSucceedsIff(inserted, r.source, r.userId, r.amount + r.fee, InternalDebit, r.transferId);
      if Post(inserted, DebitPosting(r)).Success? {
        var debited := Post(inserted, DebitPosting(r)).value;
        CreditSucceedsIff(debited, r.destination, 0, r.amount, InternalCredit, r.transferId);
        if Post(debited, CreditPosting(r)).Success? {
          assert Execute(s, r).value.ledger == Transferred(s, r).ledger;
          assert Execute(s, r).value.transfers == Transferred(s, r).transfers;
        }
      }
    }
  }

  /** The amount itself is not checked: amount and fee together have to be positive. */
  predicate CanWithdraw(s: Store, r: Request)
    requires r.WithdrawalRequest?
  {
    CanSpend(s, r.source, r.userId, r.amount + r.fee)
  }

  function Withdrawn(s: Store, r: Request): Store
    requires r.WithdrawalRequest? && CanWithdraw(s, r)
  {
    var paid := s.wallets[r.source].balance - (r.amount + r.fee);
    Store(
      s.wallets[r.source := s.wallets[r.source].(balance := paid)],
      s.ledger + [LedgerEntry(r.source, DebitEntry, WithdrawalEntry, r.amount + r.fee, paid, r.transferId)],
      s.transfers[r.transferId := Transfer(
        Withdrawal, Processing, r.userId, r.currency, r.amount, r.fee, Some(r.source), None)])
  }

  lemma WithdrawalSucceedsIff(s: Store, r: Request)
    requires r.WithdrawalRequest?
    ensures ValidationError(s, r).None? && Execute(s, r).Success? <==> CanWithdraw(s, r)
    ensures CanWithdraw(s, r) ==> Execute(s, r) == Success(Withdrawn(s, r))
  {
    if ValidationError(s, r).None? {
      var inserted := InsertTransfer(s, r.transferId, WithdrawalRow(r));
      DebitSucceedsIff(inserted, r.source, r.userId, r.amount + r.fee, WithdrawalEntry, r.transferId);
    }
  }

  predicate CanCredit(s: Store, r: Request)
    requires r.DepositCredit?
  {
    r.amount - r.fee > 0 && r.destination in s.wallets && s.wallets[r.destination].status != Closed
  }

  /** The wallet gets the amount less the fee, and the row is COMPLETED. */
  function Credited(s: Store, r: Request): Store
    requires r.DepositCredit? && CanCredit(s, r) && r.transferId in s.transfers
  {
    var received := s.wallets[r.destination].balance + (r.amount - r.fee);
    Store(
      s.wallets[r.destination := s.wallets[r.destination].(balance := received)],
      s.ledger + [LedgerEntry(r.destination, CreditEntry, DepositEntry, r.amount - r.fee, received, r.transferId)],
      s.transfers[r.transferId := s.transfers[r.transferId].(status := Completed)])
  }

  lemma CreditingSucceedsIff(s: Store, r: Request)
    requires r.DepositCredit? && r.transferId in s.transfers
    ensures Execute(s, r).Success? <==> CanCredit(s, r)
    ensures CanCredit(s, r) ==> Execute(s, r) == Success(Credited(s, r))
  {
    if r.destination in s.wallets {
      CreditSucceedsIff(s, r.destination, 0, r.amount - r.fee, DepositEntry, r.transferId);
    }
  }

  /** The rows allow the request; a deposit's credit is for a deposit row with its own columns. */
  predicate Allowed(s: Store, r: Request) {
    match r
    case InternalRequest(_, _, _, _, _, _, _) => CanTransfer(s, r)
    case WithdrawalRequest(_, _, _, _, _, _) => CanWithdraw(s, r)
    case DepositCredit(id, destination, amount, fee) =>
      && id in s.transfers && s.transfers[id].kind == Deposit && s.transfers[id].destination == Some(destination)
      && s.transfers[id].amount == amount && s.transfers[id].fee == fee && CanCredit(s, r)
  }

  function Outcome(s: Store, r: Request): Store
    requires Allowed(s, r)
  {
    match r
    case InternalRequest(_, _, _, _, _, _, _) => Transferred(s, r)
    case WithdrawalRequest(_, _, _, _, _, _) => Withdrawn(s, r)
    case DepositCredit(_, _, _, _) => Credited(s, r)
  }

  /** Validation and transaction together succeed exactly when the rows allow the request. */
  lemma ExecuteIsOutcome(s: Store, r: Request)
    ensures ValidationError(s, r).None? && Execute(s, r).Success? <==> Allowed(s, r)
    ensures Allowed(s, r) ==> Execute(s, r) == Success(Outcome(s, r))
  {
    match r
    case InternalRequest(_, _, _, _, _, _, _) => TransferSucceedsIff(s, r);
    case WithdrawalRequest(_, _, _, _, _, _) => WithdrawalSucceedsIff(s, r);
    case DepositCredit(id, _, _, _) => if id in s.transfers { CreditingSucceedsIff(s, r); }
  }

  // ----- the single-statement changes -----

  /** A user gets an empty active wallet in exactly the currency asked for, once. */
  lemma WalletCreatedIff(s: Store, w: WalletId, userId: UserId, currency: Currency)
    requires w !in s.wallets
    ensures var created := ApplyEvent(s, WalletCreated(w, userId, currency));
      && (created.Success? <==>
            forall v :: v in s.wallets && s.wallets[v].userId == userId ==> s.wallets[v].currency != currency)
      && (created.Success? ==>
            created.value == s.(wallets := s.wallets[w := Wallet(userId, currency, 0, 0, Active)]))
  {
  }

  lemma SecondWalletIsRefused(s: Store, w: WalletId, v: WalletId, userId: UserId, currency: Currency)
    requires ApplyEvent(s, WalletCreated(w, userId, currency)).Success?
    ensures ApplyEvent(ApplyEvent(s, WalletCreated(w, userId, currency)).value, WalletCreated(v, userId, currency))
         == Failure(WalletExists)
  {
    var s' := ApplyEvent(s, WalletCreated(w, userId, currency)).value;
    assert s'.wallets[w].userId == userId && s'.wallets[w].currency == currency;
  }

  lemma WalletStatusIsSet(s: Store, w: WalletId, status: WalletStatus)
    requires w in s.wallets
    ensures var wallet := s.wallets[w];
      ApplyEvent(s, WalletStatusSet(w, status)) == Success(s.(wallets :=
        s.wallets[w := Wallet(wallet.userId, wallet.currency, wallet.balance, wallet.held, status)]))
  {
  }

  /** A deposit row needs the caller's own wallet, named by its currency's code, and a positive amount. */
  lemma DepositInitiatedIff(s: Store, id: TransferId, userId: UserId, destination: WalletId, amount: int, fee: int,
                            currency: string)
    requires id !in s.transfers
    ensures var initiated := ApplyEvent(s, DepositInitiated(id, userId, destination, amount, fee, currency));
      && (initiated.Success? <==>
            && destination in s.wallets && s.wallets[destination].userId == userId
            && Code(s.wallets[destination].currency) == currency && amount > 0)
      && (initiated.Success? ==> initiated.value == s.(transfers := s.transfers[
            id := Transfer(Deposit, Pending, userId, currency, amount, fee, None, Some(destination))]))
  {
  }

  lemma StatusIsWritten(s: Store, id: TransferId, status: TransferStatus)
    requires id in s.transfers && s.transfers[id].kind != InternalTransfer
    ensures ApplyEvent(s, StatusWritten(id, status))
         == Success(s.(transfers := s.transfers[id := s.transfers[id].(status := status)]))
  {
  }

  // ----- no user has two wallets of one currency -----

  ghost predicate OneEach(s: Store) {
    forall v, w :: v in s.wallets && w in s.wallets && v != w ==>
      s.wallets[v].userId != s.wallets[w].userId || s.wallets[v].currency != s.wallets[w].currency
  }

  lemma EventKeepsOneEach(s: Store, e: Event)
    requires OneEach(s) && ApplyEvent(s, e).Success?
    ensures OneEach(ApplyEvent(s, e).value)
  {
    EventPersists(s, e);
    if e.Committed? {
      ExecuteTables(s, e.request);
    }
  }

  lemma {:induction false} HistoryKeepsOneEach(history: seq<Event>)
    requires Replay(history).Success?
    ensures OneEach(Replay(history).value)
  {
    if history != [] {
      HistoryKeepsOneEach(history[..|history| - 1]);
      EventKeepsOneEach(Replay(history[..|history| - 1]).value, history[|history| - 1]);
    }
  }

  /** In every run a user has at most one wallet of each currency. */
  lemma OneWalletPerCurrency(schedule: seq<Action>, v: WalletId, w: WalletId)
    requires v in Run(schedule).store.wallets && w in Run(schedule).store.wallets && v != w
    ensures var wallets := Run(schedule).store.wallets;
      wallets[v].userId != wallets[w].userId || wallets[v].currency != wallets[w].currency
  {
    Serializable(schedule);
    HistoryKeepsOneEach(Run(schedule).log);
    assert OneEach(Run(schedule).store);
  }

  // ----- commits, in every schedule -----

  /** In every schedule, what commits is allowed by the rows of the moment it commits, and leaves exactly
      the rows it should. */
  lemma CommitsAreAllowed(schedule: seq<Action>, tx: TxId)
    requires Enabled(Run(schedule), Commit(tx))
    ensures var s, r := Run(schedule).store, Run(schedule).txs[tx].request;
      Allowed(s, r) && Take(Run(schedule), Commit(tx)).store == Outcome(s, r)
  {
    ReachableInv(schedule);
    CommitActsAlone(schedule, tx);
    ExecuteIsOutcome(Run(schedule).store, Run(schedule).txs[tx].request);
  }

  // ----- and whatever is allowed can commit -----

  lemma PrefixSucceeds(s: Store, r: Request, n: nat)
    requires n <= |Program(r)| && Prefix(s, r, |Program(r)|).Success?
    ensures Prefix(s, r, n).Success?
    decreases |Program(r)| - n
  {
    if n < |Program(r)| { PrefixSucceeds(s, r, n + 1); }
  }

  lemma RunOne(schedule: seq<Action>, a: Action)
    requires Enabled(Run(schedule), a)
    ensures Run(schedule + [a]) == Take(Run(schedule), a)
  {
    assert (schedule + [a])[..|schedule|] == schedule;
  }

  /** Nobody else runs, nothing is committed, and the first n statements of the transaction are done. */
  ghost predicate Alone(from: State, s: State, tx: TxId, r: Request, n: nat) {
    && s.store == from.store && s.log == from.log && n <= |Program(r)|
    && s.txs.Keys == {tx} && s.txs[tx].request == r && s.txs[tx].pc == n
  }

  lemma AloneNothingWaits(s: State, tx: TxId)
    requires LocksExact(s.txs, s.locks) && s.txs.Keys == {tx} && Unfinished(s, tx)
    ensures Enabled(s, Advance(tx))
  {
  }

  lemma OneStatementFurther(from: State, s: State, tx: TxId, r: Request, n: nat)
    requires EngineInv(s) && Alone(from, s, tx, r, n) && n < |Program(r)|
    requires Prefix(from.store, r, n + 1).Success?
    ensures Enabled(s, Advance(tx))
    ensures Alone(from, Take(s, Advance(tx)), tx, r, n + 1) && Take(s, Advance(tx)).used == s.used
  {
    AloneNothingWaits(s, tx);
    assert WorkIsCurrent(s, tx);
  }

  lemma {:induction false} RunsThrough(schedule: seq<Action>, tx: TxId, r: Request, n: nat) returns (later: seq<Action>)
    requires n <= |Program(r)| && Enabled(Run(schedule), Begin(tx, r)) && Run(schedule).txs == map[]
    requires Prefix(Run(schedule).store, r, |Program(r)|).Success?
    ensures Alone(Run(schedule), Run(schedule + later), tx, r, n)
  {
    if n == 0 {
      RunOne(schedule, Begin(tx, r));
      later := [Begin(tx, r)];
    } else {
      var before := RunsThrough(schedule, tx, r, n - 1);
      ReachableInv(schedule + before);
      PrefixSucceeds(Run(schedule).store, r, n);
      OneStatementFurther(Run(schedule), Run(schedule + before), tx, r, n - 1);
      RunOne(schedule + before, Advance(tx));
      later := before + [Advance(tx)];
      assert schedule + later == schedule + before + [Advance(tx)];
    }
  }

  lemma AllowedCanBegin(s: State, tx: TxId, r: Request)
    requires EngineInv(s) && s.txs == map[] && Allowed(s.store, r) && (Inserts(r) ==> r.transferId !in s.used)
    ensures Enabled(s, Begin(tx, r)) && Prefix(s.store, r, |Program(r)|).Success?
  {
    ExecuteIsOutcome(s.store, r);
    ProgramIsExecute(s.store, r);
  }

  lemma CommitEndsAlone(from: State, s: State, tx: TxId, r: Request)
    requires EngineInv(s) && Alone(from, s, tx, r, |Program(r)|)
    ensures Enabled(s, Commit(tx))
    ensures var s' := Take(s, Commit(tx));
      s'.txs == map[] && s'.log == from.log + [Committed(r)] && Execute(from.store, r) == Success(s'.store)
  {
    CommitExecutes(s, tx);
  }

  lemma CommitsInTheEnd(from: State, schedule: seq<Action>, tx: TxId, r: Request)
    requires Alone(from, Run(schedule), tx, r, |Program(r)|)
    ensures var s := Run(schedule + [Commit(tx)]);
      s.txs == map[] && s.log == from.log + [Committed(r)] && Execute(from.store, r) == Success(s.store)
  {
    ReachableInv(schedule);
    CommitEndsAlone(from, Run(schedule), tx, r);
    RunOne(schedule, Commit(tx));
  }

  lemma CanBeginNow(schedule: seq<Action>, tx: TxId, r: Request)
    requires Run(schedule).txs == map[] && Allowed(Run(schedule).store, r)
    requires Inserts(r) ==> r.transferId !in Run(schedule).used
    ensures Enabled(Run(schedule), Begin(tx, r)) && Prefix(Run(schedule).store, r, |Program(r)|).Success?
  {
    ReachableInv(schedule);
    AllowedCanBegin(Run(schedule), tx, r);
  }

  /** From every reachable state in which nothing runs, a request the rows allow, under an unused id if it
      inserts a row, can run to its commit. */
  lemma AllowedRequestsCanCommit(schedule: seq<Action>, tx: TxId, r: Request) returns (later: seq<Action>)
    requires Run(schedule).txs == map[] && Allowed(Run(schedule).store, r)
    requires Inserts(r) ==> r.transferId !in Run(schedule).used
    ensures Run(schedule + later).log == Run(schedule).log + [Committed(r)] && Run(schedule + later).txs == map[]
    ensures Run(schedule + later).store == Outcome(Run(schedule).store, r)
  {
    ExecuteIsOutcome(Run(schedule).store, r);
    CanBeginNow(schedule, tx, r);
    var through := RunsThrough(schedule, tx, r, |Program(r)|);
    CommitsInTheEnd(Run(schedule), schedule + through, tx, r);
    later := through + [Commit(tx)];
    assert schedule + later == schedule + through + [Commit(tx)];
  }
}
