/**
 Concurrent database transactions. Each runs its statements one at a time against the committed
 rows and its own uncommitted writes, takes a row lock with SELECT ... FOR UPDATE or UPDATE and
 keeps it until it commits or rolls back. Any order of the statements of any set of transactions
 is a run; a statement that has to wait is simply not taken.
 */
module TransactionEngine {
  import opened Wrappers
  import opened Ledger

  type TxId = nat

  // ----- statements and the private writes of a transaction -----

  datatype Statement =
    | InsertRow(id: TransferId, row: Transfer)
    | LockWallet(posting: Posting)     // SELECT ... FOR UPDATE, then the checks on the row read
    | WritePosting(posting: Posting)   // UPDATE of the balance and INSERT of the entry
    | CompleteRow(id: TransferId)      // UPDATE of the transfer's status

  function Program(r: Request): seq<Statement> {
    match r
    case InternalRequest(id, _, _, _, _, _, _) =>
      [InsertRow(id, InternalRow(r, Processing)),
       LockWallet(DebitPosting(r)), WritePosting(DebitPosting(r)),
       LockWallet(CreditPosting(r)), WritePosting(CreditPosting(r)),
       CompleteRow(id)]
    case WithdrawalRequest(id, _, _, _, _, _) =>
      [InsertRow(id, WithdrawalRow(r)), LockWallet(DebitPosting(r)), WritePosting(DebitPosting(r))]
    case DepositCredit(id, _, _, _) =>
      [LockWallet(CreditPosting(r)), WritePosting(CreditPosting(r)), CompleteRow(id)]
  }

  /** Uncommitted writes; `read` is the wallet row the last SELECT ... FOR UPDATE returned. */
  datatype Writes = Writes(
    read: Option<Wallet>, balances: map<WalletId, int>, entries: seq<LedgerEntry>,
    inserted: map<TransferId, Transfer>, completed: set<TransferId>)

  const NO_WRITES := Writes(None, map[], [], map[], {})

  /** The wallets as the transaction sees them: the latest committed rows under its own writes. */
  function WalletView(wallets: map<WalletId, Wallet>, balances: map<WalletId, int>): map<WalletId, Wallet> {
    map w | w in wallets :: if w in balances then wallets[w].(balance := balances[w]) else wallets[w]
  }

  function Perform(s: Store, writes: Writes, statement: Statement): Result<Writes, Error> {
    match statement
    case InsertRow(id, row) => Success(writes.(inserted := writes.inserted[id := row]))
    case LockWallet(p) =>
      var view := WalletView(s.wallets, writes.balances);
      (match PostingError(view, p)
       case Some(e) => Failure(e)
       case None => Success(writes.(read := Some(view[p.walletId]))))
    case WritePosting(p) =>
      (match writes.read
       case None => Failure(NotLocked)
       case Some(wallet) =>
         var newBalance := Moved(wallet.balance, p);
         Success(writes.(balances := writes.balances[p.walletId := newBalance],
                         entries := writes.entries + [EntryFor(p, newBalance)])))
    case CompleteRow(id) => Success(writes.(completed := writes.completed + {id}))
  }

  function TransferView(transfers: map<TransferId, Transfer>, writes: Writes): map<TransferId, Transfer> {
    var rows := transfers + writes.inserted;
    map id | id in rows :: if id in writes.completed then rows[id].(status := Completed) else rows[id]
  }

  /** COMMIT makes all of a transaction's writes visible at once. */
  function Publish(s: Store, writes: Writes): Store {
    Store(WalletView(s.wallets, writes.balances), s.ledger + writes.entries, TransferView(s.transfers, writes))
  }

  /** The first n statements of a request performed on an unchanging store. */
  function Prefix(s: Store, r: Request, n: nat): Result<Writes, Error>
    requires n <= |Program(r)|
  {
    if n == 0 then Success(NO_WRITES)
    else
      var before :- Prefix(s, r, n - 1);
      Perform(s, before, Program(r)[n - 1])
  }

  // ----- running transactions -----

  datatype Resource = WalletRow(walletId: WalletId) | TransferRow(transferId: TransferId)

  datatype Tx = Tx(request: Request, pc: nat, writes: Writes)

  /** `log` is the history of committed changes in commit order; `used` are the row ids ever drawn. */
  datatype State = State(
    store: Store, txs: map<TxId, Tx>, locks: map<Resource, TxId>, log: seq<Event>,
    used: set<TransferId>, aborted: seq<Request>)

  const INITIAL := State(EMPTY_STORE, map[], map[], [], {}, [])

  datatype Action =
    | Begin(tx: TxId, request: Request)
    | Advance(tx: TxId)
    | Commit(tx: TxId)
    | Rollback(tx: TxId)            // an error, a lost connection or a deadlock victim
    | Autocommit(event: Event)      // a single statement outside any transaction

  /** The row a statement has to lock. A non-positive amount is refused before anything is read. */
  function Needs(statement: Statement): Option<Resource> {
    match statement
    case InsertRow(_, _) => None
    case LockWallet(p) => if p.amount > 0 then Some(WalletRow(p.walletId)) else None
    case WritePosting(_) => None
    case CompleteRow(id) => Some(TransferRow(id))
  }

  predicate Available(locks: map<Resource, TxId>, need: Option<Resource>, tx: TxId) {
    match need
    case None => true
    case Some(resource) => resource !in locks || locks[resource] == tx
  }

  function Acquire(locks: map<Resource, TxId>, need: Option<Resource>, tx: TxId): map<Resource, TxId> {
    match need
    case None => locks
    case Some(resource) => locks[resource := tx]
  }

  function Release(locks: map<Resource, TxId>, tx: TxId): map<Resource, TxId> {
    map resource | resource in locks && locks[resource] != tx :: locks[resource]
  }

  /** Row an autocommitted statement updates, which it can do only while nobody holds it. */
  function EventRow(e: Event): Option<Resource> {
    match e
    case WalletStatusSet(w, _) => Some(WalletRow(w))
    case StatusWritten(id, _) => Some(TransferRow(id))
    case _ => None
  }

  predicate Unfinished(s: State, tx: TxId) {
    tx in s.txs && s.txs[tx].pc < |Program(s.txs[tx].request)|
  }

  function NextStatement(s: State, tx: TxId): Statement
    requires Unfinished(s, tx)
  {
    Program(s.txs[tx].request)[s.txs[tx].pc]
  }

  predicate Enabled(s: State, a: Action) {
    match a
    case Begin(tx, r) =>
      tx !in s.txs && ValidationError(s.store, r).None? && (Inserts(r) ==> r.transferId !in s.used)
    case Advance(tx) => Unfinished(s, tx) && Available(s.locks, Needs(NextStatement(s, tx)), tx)
    case Commit(tx) => tx in s.txs && s.txs[tx].pc == |Program(s.txs[tx].request)|
    case Rollback(tx) => tx in s.txs
    case Autocommit(e) =>
      && !e.Committed?
      && (EventRow(e).Some? ==> EventRow(e).value !in s.locks)
      && (e.DepositInitiated? ==> e.transferId !in s.used)
      && ApplyEvent(s.store, e).Success?
  }

  function Forget(s: State, tx: TxId): State
    requires tx in s.txs
  {
    s.(txs := s.txs - {tx}, locks := Release(s.locks, tx), aborted := s.aborted + [s.txs[tx].request])
  }

  /** The next statement succeeded: its row is locked and its writes are kept. */
  function MoveOn(s: State, tx: TxId, writes: Writes): State
    requires Unfinished(s, tx)
  {
    s.(txs := s.txs[tx := Tx(s.txs[tx].request, s.txs[tx].pc + 1, writes)],
       locks := Acquire(s.locks, Needs(NextStatement(s, tx)), tx))
  }

  function Take(s: State, a: Action): State
    requires Enabled(s, a)
  {
    match a
    case Begin(tx, r) =>
      s.(txs := s.txs[tx := Tx(r, 0, NO_WRITES)],
         used := if Inserts(r) then s.used + {r.transferId} else s.used)
    case Advance(tx) =>
      (match Perform(s.store, s.txs[tx].writes, NextStatement(s, tx))
       case Failure(_) => Forget(s, tx)
       case Success(writes) => MoveOn(s, tx, writes))
    case Commit(tx) =>
      var t := s.txs[tx];
      s.(store := Publish(s.store, t.writes), txs := s.txs - {tx}, locks := Release(s.locks, tx),
         log := s.log + [Committed(t.request)])
    case Rollback(tx) => Forget(s, tx)
    case Autocommit(e) =>
      s.(store := ApplyEvent(s.store, e).value, log := s.log + [e],
         used := if e.DepositInitiated? then s.used + {e.transferId} else s.used)
  }

  /** The state after a schedule; an action that is not possible when its turn comes does nothing. */
  function Run(schedule: seq<Action>): State {
    if schedule == [] then INITIAL
    else
      var s := Run(schedule[..|schedule| - 1]);
      var a := schedule[|schedule| - 1];
      if Enabled(s, a) then Take(s, a) else s
  }

  // ----- a program run alone does what Execute says -----

  lemma LockThenWrite(s: Store, writes: Writes, p: Posting)
    ensures var view := Publish(s, writes);
      var locked := Perform(s, writes, LockWallet(p));
      && (locked.Failure? <==> Post(view, p).Failure?)
      && (locked.Failure? ==> locked.error == Post(view, p).error)
      && (locked.Success? ==>
            var written := Perform(s, locked.value, WritePosting(p));
            && written.Success?
            && Publish(s, written.value) == Post(view, p).value
            && written.value.inserted == writes.inserted && written.value.completed == writes.completed)
  {
  }

  lemma ProgramIsExecute(s: Store, r: Request)
    requires Inserts(r) ==> r.transferId !in s.transfers
    requires !Inserts(r) ==> r.transferId in s.transfers
    ensures var done := Prefix(s, r, |Program(r)|);
      && (done.Failure? ==> Execute(s, r) == Failure(done.error))
      && (done.Success? ==> Execute(s, r) == Success(Publish(s, done.value)))
  {
    match r
    case InternalRequest(_, _, _, _, _, _, _) => InternalProgram(s, r);
    case WithdrawalRequest(_, _, _, _, _, _) => WithdrawalProgram(s, r);
    case DepositCredit(_, _, _, _) => DepositProgram(s, r);
  }

  lemma PublishNothing(s: Store)
    ensures Publish(s, NO_WRITES) == s
  {
    assert s.transfers + map[] == s.transfers;
    assert TransferView(s.transfers, NO_WRITES) == s.transfers;
    assert WalletView(s.wallets, map[]) == s.wallets;
  }

  lemma PublishInsert(s: Store, id: TransferId, row: Transfer)
    ensures Publish(s, NO_WRITES.(inserted := map[id := row])) == InsertTransfer(s, id, row)
  {
    var writes := NO_WRITES.(inserted := map[id := row]);
    assert TransferView(s.transfers, writes) == s.transfers[id := row];
    assert WalletView(s.wallets, map[]) == s.wallets;
  }

  lemma PublishComplete(s: Store, writes: Writes, id: TransferId)
    requires id in s.transfers || id in writes.inserted
    ensures Publish(s, writes.(completed := writes.completed + {id})) == SetStatus(Publish(s, writes), id, Completed)
  {
    var after := writes.(completed := writes.completed + {id});
    assert TransferView(s.transfers, after) == SetStatus(Publish(s, writes), id, Completed).transfers;
  }

  lemma FirstStatement(s: Store, r: Request)
    ensures Prefix(s, r, 1) == Perform(s, NO_WRITES, Program(r)[0])
  {
    assert Prefix(s, r, 0) == Success(NO_WRITES);
  }

  lemma InternalProgram(s: Store, r: Request)
    requires r.InternalRequest? && r.transferId !in s.transfers
    ensures var done := Prefix(s, r, 6);
      && (done.Failure? ==> Execute(s, r) == Failure(done.error))
      && (done.Success? ==> Execute(s, r) == Success(Publish(s, done.value)))
  {
    FirstStatement(s, r);
    var w1 := Prefix(s, r, 1).value;
    PublishInsert(s, r.transferId, InternalRow(r, Processing));
    LockThenWrite(s, w1, DebitPosting(r));
    assert Prefix(s, r, 2) == Perform(s, w1, LockWallet(DebitPosting(r)));
    if Prefix(s, r, 2).Success? {
      assert Prefix(s, r, 3) == Perform(s, Prefix(s, r, 2).value, WritePosting(DebitPosting(r)));
      var w3 := Prefix(s, r, 3).value;
      LockThenWrite(s, w3, CreditPosting(r));
      assert Prefix(s, r, 4) == Perform(s, w3, LockWallet(CreditPosting(r)));
      if Prefix(s, r, 4).Success? {
        assert Prefix(s, r, 5) == Perform(s, Prefix(s, r, 4).value, WritePosting(CreditPosting(r)));
        var w5 := Prefix(s, r, 5).value;
        PublishComplete(s, w5, r.transferId);
      } else {
        assert Prefix(s, r, 5).Failure?;
      }
    } else {
      assert Prefix(s, r, 3).Failure?;
      assert Prefix(s, r, 4).Failure?;
      assert Prefix(s, r, 5).Failure?;
    }
  }

  lemma WithdrawalProgram(s: Store, r: Request)
    requires r.WithdrawalRequest? && r.transferId !in s.transfers
    ensures var done := Prefix(s, r, 3);
      && (done.Failure? ==> Execute(s, r) == Failure(done.error))
      && (done.Success? ==> Execute(s, r) == Success(Publish(s, done.value)))
  {
    FirstStatement(s, r);
    var w1 := Prefix(s, r, 1).value;
    PublishInsert(s, r.transferId, WithdrawalRow(r));
    LockThenWrite(s, w1, DebitPosting(r));
    assert Prefix(s, r, 2) == Perform(s, w1, LockWallet(DebitPosting(r)));
    if Prefix(s, r, 2).Success? {
      assert Prefix(s, r, 3) == Perform(s, Prefix(s, r, 2).value, WritePosting(DebitPosting(r)));
    }
  }

  lemma DepositProgram(s: Store, r: Request)
    requires r.DepositCredit? && r.transferId in s.transfers
    ensures var done := Prefix(s, r, 3);
      && (done.Failure? ==> Execute(s, r) == Failure(done.error))
      && (done.Success? ==> Execute(s, r) == Success(Publish(s, done.value)))
  {
    PublishNothing(s);
    LockThenWrite(s, NO_WRITES, CreditPosting(r));
    assert Prefix(s, r, 1) == Perform(s, NO_WRITES, LockWallet(CreditPosting(r)));
    if Prefix(s, r, 1).Success? {
      assert Prefix(s, r, 2) == Perform(s, Prefix(s, r, 1).value, WritePosting(CreditPosting(r)));
      PublishComplete(s, Prefix(s, r, 2).value, r.transferId);
    } else {
      assert Prefix(s, r, 2).Failure?;
    }
  }
}
