/**
 The database tables money lives in, and what each committed database
 transaction does to them when it runs alone.
 */
module Ledger {
  import opened Wrappers

  type UserId = nat
  type WalletId = nat
  type TransferId = nat

  // ----- rows -----

  datatype Currency = NGN | USD | GHS | KES | ZAR | EUR | GBP

  function Code(c: Currency): string {
    match c
    case NGN => "NGN" case USD => "USD" case GHS => "GHS" case KES => "KES"
    case ZAR => "ZAR" case EUR => "EUR" case GBP => "GBP"
  }

  datatype WalletStatus = Active | Frozen | Closed

  datatype Wallet = Wallet(
    userId: UserId, currency: Currency, balance: int, held: int, status: WalletStatus)

  datatype EntryType = CreditEntry | DebitEntry

  datatype Category = DepositEntry | WithdrawalEntry | InternalCredit | InternalDebit

  datatype LedgerEntry = LedgerEntry(
    walletId: WalletId, kind: EntryType, category: Category, amount: int,
    balanceAfter: int, transferId: TransferId)

  datatype TransferType = InternalTransfer | Deposit | Withdrawal

  datatype TransferStatus = Pending | Processing | Completed | Failed | Reversed | Cancelled

  /** `currency` is what the caller named; nothing compares it with the wallets' currency. */
  datatype Transfer = Transfer(
    kind: TransferType, status: TransferStatus, userId: UserId, currency: string,
    amount: int, fee: int, source: Option<WalletId>, destination: Option<WalletId>)

  datatype Store = Store(
    wallets: map<WalletId, Wallet>, ledger: seq<LedgerEntry>, transfers: map<TransferId, Transfer>)

  const EMPTY_STORE := Store(map[], [], map[])

  datatype Error =
    | NonPositiveAmount | WalletNotFound | AccessDenied | WalletNotActive | WalletClosed
    | InsufficientFunds | WalletExists | SameWallet | CurrencyMismatch | TransferNotFound
    | TransferExists | NotADeposit | NotLocked

  // ----- one posting: WalletsService.debit and credit -----

  /** `userId` matters for debits only: credits do not verify ownership. */
  datatype Posting = Posting(
    walletId: WalletId, kind: EntryType, userId: UserId, amount: int,
    category: Category, transferId: TransferId)

  /** Why `debit` or `credit` throws, given the rows it reads; checks in the code's order. */
  function PostingError(wallets: map<WalletId, Wallet>, p: Posting): Option<Error> {
    if p.amount <= 0 then Some(NonPositiveAmount)
    else if p.walletId !in wallets then Some(WalletNotFound)
    else RowError(wallets[p.walletId], p)
  }

  function RowError(wallet: Wallet, p: Posting): Option<Error> {
    match p.kind
    case DebitEntry =>
      if wallet.userId != p.userId then Some(AccessDenied)
      else if wallet.status != Active then Some(WalletNotActive)
      else if wallet.balance - wallet.held < p.amount then Some(InsufficientFunds)
      else None
    case CreditEntry =>
      if wallet.status == Closed then Some(WalletClosed) else None
  }

  function SignedAmount(kind: EntryType, amount: int): int {
    match kind
    case CreditEntry => amount
    case DebitEntry => -amount
  }

  function Moved(balance: int, p: Posting): int {
    balance + SignedAmount(p.kind, p.amount)
  }

  function EntryFor(p: Posting, balanceAfter: int): LedgerEntry {
    LedgerEntry(p.walletId, p.kind, p.category, p.amount, balanceAfter, p.transferId)
  }

  function Post(s: Store, p: Posting): Result<Store, Error> {
    match PostingError(s.wallets, p)
    case Some(e) => Failure(e)
    case None =>
      var wallet := s.wallets[p.walletId];
      var newBalance := Moved(wallet.balance, p);
      Success(s.(wallets := s.wallets[p.walletId := wallet.(balance := newBalance)],
                 ledger := s.ledger + [EntryFor(p, newBalance)]))
  }

  // ----- the three money-moving transactions, run alone -----

  datatype Request =
    | InternalRequest(transferId: TransferId, userId: UserId, source: WalletId, destination: WalletId,
                      amount: int, fee: int, currency: string)
    | WithdrawalRequest(transferId: TransferId, userId: UserId, source: WalletId,
                        amount: int, fee: int, currency: string)
    | DepositCredit(transferId: TransferId, destination: WalletId, amount: int, fee: int)

  /** Transfers and withdrawals insert their row; a deposit credit finds one. */
  predicate Inserts(r: Request) {
    !r.DepositCredit?
  }

  function InternalRow(r: Request, status: TransferStatus): Transfer
    requires r.InternalRequest?
  {
    Transfer(InternalTransfer, status, r.userId, r.currency, r.amount, r.fee, Some(r.source), Some(r.destination))
  }

  function WithdrawalRow(r: Request): Transfer
    requires r.WithdrawalRequest?
  {
    Transfer(Withdrawal, Processing, r.userId, r.currency, r.amount, r.fee, Some(r.source), None)
  }

  /** The amount debited from the source: the fee is charged on top. */
  function DebitPosting(r: Request): Posting
    requires !r.DepositCredit?
  {
    Posting(r.source, DebitEntry, r.userId, r.amount + r.fee,
            if r.InternalRequest? then InternalDebit else WithdrawalEntry, r.transferId)
  }

  /** An internal credit is the full amount; a deposit credit is net of the fee. */
  function CreditPosting(r: Request): Posting
    requires !r.WithdrawalRequest?
  {
    if r.InternalRequest?
    then Posting(r.destination, CreditEntry, 0, r.amount, InternalCredit, r.transferId)
    else Posting(r.destination, CreditEntry, 0, r.amount - r.fee, DepositEntry, r.transferId)
  }

  function InsertTransfer(s: Store, id: TransferId, row: Transfer): Store {
    s.(transfers := s.transfers[id := row])
  }

  /** An UPDATE of a missing row touches nothing. */
  function SetStatus(s: Store, id: TransferId, status: TransferStatus): Store {
    if id in s.transfers
    then s.(transfers := s.transfers[id := s.transfers[id].(status := status)])
    else s
  }

  function Execute(s: Store, r: Request): Result<Store, Error> {
    match r
    case InternalRequest(id, _, _, _, _, _, _) =>
      var debited :- Post(InsertTransfer(s, id, InternalRow(r, Processing)), DebitPosting(r));
      var credited :- Post(debited, CreditPosting(r));
      Success(SetStatus(credited, id, Completed))
    case WithdrawalRequest(id, _, _, _, _, _) =>
      Post(InsertTransfer(s, id, WithdrawalRow(r)), DebitPosting(r))
    case DepositCredit(id, _, _, _) =>
      var credited :- Post(s, CreditPosting(r));
      Success(SetStatus(credited, id, Completed))
  }

  /** What each service verifies, unlocked, before it opens its transaction. */
  function ValidationError(s: Store, r: Request): Option<Error> {
    match r
    case InternalRequest(_, userId, source, destination, amount, _, _) =>
      if source !in s.wallets || destination !in s.wallets then Some(WalletNotFound)
      else if s.wallets[source].userId != userId then Some(AccessDenied)
      else if source == destination then Some(SameWallet)
      else if s.wallets[source].currency != s.wallets[destination].currency then Some(CurrencyMismatch)
      else if amount <= 0 then Some(NonPositiveAmount)
      else None
    case WithdrawalRequest(_, userId, source, _, _, _) =>
      if source !in s.wallets then Some(WalletNotFound)
      else if s.wallets[source].userId != userId then Some(AccessDenied)
      else None
    case DepositCredit(id, destination, amount, fee) =>
      if id !in s.transfers then Some(TransferNotFound)
      else
        var row := s.transfers[id];
        if row.kind == Deposit && row.destination == Some(destination) && row.amount == amount && row.fee == fee
        then None else Some(NotADeposit)
  }

  // ----- everything that can change the tables -----

  datatype Event =
    | WalletCreated(walletId: WalletId, userId: UserId, walletCurrency: Currency)
    | WalletStatusSet(walletId: WalletId, walletStatus: WalletStatus)
    | DepositInitiated(transferId: TransferId, userId: UserId, destination: WalletId,
                       amount: int, fee: int, currency: string)
    | StatusWritten(transferId: TransferId, status: TransferStatus)
    | Committed(request: Request)

  function DepositRow(userId: UserId, destination: WalletId, amount: int, fee: int, currency: string): Transfer {
    Transfer(Deposit, Pending, userId, currency, amount, fee, None, Some(destination))
  }

  predicate HasWallet(s: Store, userId: UserId, currency: Currency) {
    exists w :: w in s.wallets && s.wallets[w].userId == userId && s.wallets[w].currency == currency
  }

  function ApplyEvent(s: Store, e: Event): Result<Store, Error> {
    match e
    case WalletCreated(w, userId, currency) =>
      if w in s.wallets || HasWallet(s, userId, currency) then Failure(WalletExists)
      else Success(s.(wallets := s.wallets[w := Wallet(userId, currency, 0, 0, Active)]))
    case WalletStatusSet(w, status) =>
      if w !in s.wallets then Success(s)
      else Success(s.(wallets := s.wallets[w := s.wallets[w].(status := status)]))
    case DepositInitiated(id, userId, destination, amount, fee, currency) =>
      if destination !in s.wallets then Failure(WalletNotFound)
      else if s.wallets[destination].userId != userId then Failure(AccessDenied)
      else if Code(s.wallets[destination].currency) != currency then Failure(CurrencyMismatch)
      else if amount <= 0 then Failure(NonPositiveAmount)
      else if id in s.transfers then Failure(TransferExists)
      else Success(InsertTransfer(s, id, DepositRow(userId, destination, amount, fee, currency)))
    case StatusWritten(id, status) =>
      if id in s.transfers && s.transfers[id].kind == InternalTransfer then Failure(NotADeposit)
      else Success(SetStatus(s, id, status))
    case Committed(r) =>
      if Inserts(r) && r.transferId in s.transfers then Failure(TransferExists)
      else Execute(s, r)
  }

  /** The store after a history of events, each applied alone, in order. */
  function Replay(history: seq<Event>): Result<Store, Error> {
    if history == [] then Success(EMPTY_STORE)
    else
      var before :- Replay(history[..|history| - 1]);
      ApplyEvent(before, history[|history| - 1])
  }

  lemma ReplayAppend(history: seq<Event>, e: Event)
    ensures Replay(history).Failure? ==> Replay(history + [e]) == Replay(history)
    ensures Replay(history).Success? ==> Replay(history + [e]) == ApplyEvent(Replay(history).value, e)
  {
    assert (history + [e])[..|history|] == history;
  }

  // ----- reading the ledger -----

  /** SUM(CASE WHEN credit THEN amount ELSE -amount END) over one wallet's entries. */
  function SignedSum(ledger: seq<LedgerEntry>, w: WalletId): int {
    if ledger == [] then 0
    else
      var e := ledger[|ledger| - 1];
      SignedSum(ledger[..|ledger| - 1], w) + if e.walletId == w then SignedAmount(e.kind, e.amount) else 0
  }

  /** What an entry says without the running balance. */
  datatype Leg = Leg(walletId: WalletId, kind: EntryType, category: Category, amount: int)

  function LegOf(e: LedgerEntry): Leg {
    Leg(e.walletId, e.kind, e.category, e.amount)
  }

  /** The entries a transfer has in the ledger, in order. */
  function Legs(ledger: seq<LedgerEntry>, id: TransferId): seq<Leg> {
    if ledger == [] then []
    else
      var e := ledger[|ledger| - 1];
      Legs(ledger[..|ledger| - 1], id) + if e.transferId == id then [LegOf(e)] else []
  }

  /** The total amount posted under a category to wallets of a currency. */
  function CategoryTotal(ledger: seq<LedgerEntry>, wallets: map<WalletId, Wallet>, category: Category,
                         c: Currency): int {
    if ledger == [] then 0
    else
      var e := ledger[|ledger| - 1];
      CategoryTotal(ledger[..|ledger| - 1], wallets, category, c)
      + if e.category == category && e.walletId in wallets && wallets[e.walletId].currency == c then e.amount else 0
  }
}
