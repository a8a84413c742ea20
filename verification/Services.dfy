/**
 The services and queue handlers as the code writes them: statement by statement on the tables,
 with a snapshot restored where the code rolls back. Each is proved against Ledger and Settlement.
 */
module Services {
  import opened Wrappers
  import opened Ledger
  import opened LedgerInvariants
  import opened Settlement
  import DailyLimit

  class Database {
    var wallets: map<WalletId, Wallet>
    var ledger: seq<LedgerEntry>
    var transfers: map<TransferId, Transfer>

    constructor ()
      ensures Snapshot() == EMPTY_STORE
    {
      wallets, ledger, transfers := map[], [], map[];
    }

    function Snapshot(): Store
      reads this
    {
      Store(wallets, ledger, transfers)
    }

    /** ROLLBACK: back to the tables as they were when the transaction started. */
    method Restore(saved: Store)
      modifies this
      ensures Snapshot() == saved
    {
      wallets, ledger, transfers := saved.wallets, saved.ledger, saved.transfers;
    }

    method UpdateStatus(id: TransferId, status: TransferStatus)
      modifies this`transfers
      ensures Snapshot() == SetStatus(old(Snapshot()), id, status)
    {
      if id in transfers {
        transfers := transfers[id := transfers[id].(status := status)];
      }
    }
  }

  class WalletsService {
    const db: Database

    constructor (db: Database)
      ensures this.db == db
    {
      this.db := db;
    }

    method CreateWallet(id: WalletId, userId: UserId, currency: Currency) returns (error: Option<Error>)
      requires id !in db.wallets
      modifies db
      ensures error == None <==>
        forall w :: w in old(db.wallets) && old(db.wallets)[w].userId == userId ==>
          old(db.wallets)[w].currency != currency
      ensures error == None ==> db.wallets == old(db.wallets)[id := Wallet(userId, currency, 0, 0, Active)]
      ensures error == None ==> db.ledger == old(db.ledger) && db.transfers == old(db.transfers)
      ensures error != None ==> error == Some(WalletExists)
      ensures error == None ==>
        ApplyEvent(old(db.Snapshot()), WalletCreated(id, userId, currency)) == Success(db.Snapshot())
      ensures error != None ==> db.Snapshot() == old(db.Snapshot())
    {
      if exists w :: w in db.wallets && db.wallets[w].userId == userId && db.wallets[w].currency == currency {
        return Some(WalletExists);
      }
      db.wallets := db.wallets[id := Wallet(userId, currency, 0, 0, Active)];
      error := None;
    }

    /** The whole available balance may be spent, and nothing of what is held. */
    method Debit(walletId: WalletId, userId: UserId, amount: int, category: Category, transferId: TransferId)
        returns (result: Result<LedgerEntry, Error>)
      modifies db
      ensures result.Success? <==>
        && amount > 0 && walletId in old(db.wallets)
        && var wallet := old(db.wallets)[walletId];
           wallet.userId == userId && wallet.status == Active && amount <= wallet.balance - wallet.held
      ensures result.Success? ==>
        var wallet := old(db.wallets)[walletId];
        && result.value == LedgerEntry(walletId, DebitEntry, category, amount, wallet.balance - amount, transferId)
        && db.wallets == old(db.wallets)[walletId := wallet.(balance := wallet.balance - amount)]
        && db.ledger == old(db.ledger) + [result.value] && db.transfers == old(db.transfers)
      ensures result.Failure? ==>
        match result.error
        case NonPositiveAmount => amount <= 0
        case WalletNotFound => walletId !in old(db.wallets)
        case AccessDenied => walletId in old(db.wallets) && old(db.wallets)[walletId].userId != userId
        case WalletNotActive => walletId in old(db.wallets) && old(db.wallets)[walletId].status != Active
        case InsufficientFunds =>
          walletId in old(db.wallets) && old(db.wallets)[walletId].balance - old(db.wallets)[walletId].held < amount
        case _ => false
      ensures var posting := Posting(walletId, DebitEntry, userId, amount, category, transferId);
        var posted := Post(old(db.Snapshot()), posting);
        match posted
        case Failure(e) => result == Failure(e) && db.Snapshot() == old(db.Snapshot())
        case Success(s) => db.Snapshot() == s && result == Success(s.ledger[|s.ledger| - 1])
    {
      if amount <= 0 { return Failure(NonPositiveAmount); }
      if walletId !in db.wallets { return Failure(WalletNotFound); }
      var wallet := db.wallets[walletId];
      if wallet.userId != userId { return Failure(AccessDenied); }
      if wallet.status != Active { return Failure(WalletNotActive); }
      var available := wallet.balance - wallet.held;
      if available < amount { return Failure(InsufficientFunds); }
      var newBalance := wallet.balance - amount;
      db.wallets := db.wallets[walletId := wallet.(balance := newBalance)];
      var entry := LedgerEntry(walletId, DebitEntry, category, amount, newBalance, transferId);
      db.ledger := db.ledger + [entry];
      return Success(entry);
    }

    method Credit(walletId: WalletId, amount: int, category: Category, transferId: TransferId)
        returns (result: Result<LedgerEntry, Error>)
      modifies db
      ensures result.Success? <==>
        amount > 0 && walletId in old(db.wallets) && old(db.wallets)[walletId].status != Closed
      ensures result.Success? ==>
        var wallet := old(db.wallets)[walletId];
        && result.value == LedgerEntry(walletId, CreditEntry, category, amount, wallet.balance + amount, transferId)
        && db.wallets == old(db.wallets)[walletId := wallet.(balance := wallet.balance + amount)]
        && db.ledger == old(db.ledger) + [result.value] && db.transfers == old(db.transfers)
      ensures result.Failure? ==>
        match result.error
        case NonPositiveAmount => amount <= 0
        case WalletNotFound => walletId !in old(db.wallets)
        case WalletClosed => walletId in old(db.wallets) && old(db.wallets)[walletId].status == Closed
        case _ => false
      ensures var posted := Post(old(db.Snapshot()), Posting(walletId, CreditEntry, 0, amount, category, transferId));
        match posted
        case Failure(e) => result == Failure(e) && db.Snapshot() == old(db.Snapshot())
        case Success(s) => db.Snapshot() == s && result == Success(s.ledger[|s.ledger| - 1])
    {
      if amount <= 0 { return Failure(NonPositiveAmount); }
      if walletId !in db.wallets { return Failure(WalletNotFound); }
      var wallet := db.wallets[walletId];
      if wallet.status == Closed { return Failure(WalletClosed); }
      var newBalance := wallet.balance + amount;
      db.wallets := db.wallets[walletId := wallet.(balance := newBalance)];
      var entry := LedgerEntry(walletId, CreditEntry, category, amount, newBalance, transferId);
      db.ledger := db.ledger + [entry];
      return Success(entry);
    }

    /** On every store the system can reach, the two balances agree. */
    method ReconcileBalance(walletId: WalletId) returns (result: Option<(int, int, bool)>)
      ensures result == None <==> walletId !in db.wallets
      ensures result != None ==>
        && result.value.0 == db.wallets[walletId].balance && result.value.1 == SignedSum(db.ledger, walletId)
        && (result.value.2 <==> result.value.0 == result.value.1)
      ensures result != None && Books(db.Snapshot()) ==> result.value.2
    {
      if walletId !in db.wallets { return None; }
      var walletBalance := db.wallets[walletId].balance;
      var calculatedBalance := SignedSum(db.ledger, walletId);
      assert Books(db.Snapshot()) ==> Balanced(db.Snapshot(), walletId);
      return Some((walletBalance, calculatedBalance, walletBalance == calculatedBalance));
    }
  }

  datatype ServiceError =
    | Refused(error: Error) | UserNotFound | Blocked | KycRequired | LimitExceeded | NotifiedLate

  class TransfersService {
    const db: Database
    const walletsService: WalletsService

    constructor (walletsService: WalletsService)
      ensures this.walletsService == walletsService && db == walletsService.db
    {
      this.walletsService, this.db := walletsService, walletsService.db;
    }

    /** `tier` is None when the user does not exist; `dailyTotal` and `fee` are what the limit query and
        the fee rules return. Either the whole transfer commits or the tables are untouched: the source pays
        amount and fee out of what it has available, and the destination gets the amount. */
    method InternalTransfer(r: Request, tier: Option<DailyLimit.KycTier>, dailyTotal: int)
      returns (error: Option<ServiceError>)
      requires r.InternalRequest? && r.transferId !in db.transfers && walletsService.db == db
      modifies db
      ensures error == None <==>
        && r.amount > 0 && r.amount + r.fee > 0 && r.source != r.destination
        && r.source in old(db.wallets) && r.destination in old(db.wallets)
        && var source, destination := old(db.wallets)[r.source], old(db.wallets)[r.destination];
        && source.userId == r.userId && source.status == Active && r.amount + r.fee <= source.balance - source.held
        && destination.status != Closed && destination.currency == source.currency
        && tier.Some?
        && match tier.value
           case Unverified => false
           case Tier1 => dailyTotal + r.amount <= 5_000_000
           case Tier2 => dailyTotal + r.amount <= 50_000_000
           case Tier3 => true
      ensures error == None ==>
        var source, destination := old(db.wallets)[r.source], old(db.wallets)[r.destination];
        var paid, received := source.balance - r.amount - r.fee, destination.balance + r.amount;
        && db.wallets == old(db.wallets)[r.source := source.(balance := paid)]
                                        [r.destination := destination.(balance := received)]
        && db.ledger == old(db.ledger) + [
             LedgerEntry(r.source, DebitEntry, InternalDebit, r.amount + r.fee, paid, r.transferId),
             LedgerEntry(r.destination, CreditEntry, InternalCredit, r.amount, received, r.transferId)]
        && db.transfers == old(db.transfers)[r.transferId := Transfer(TransferType.InternalTransfer, Completed,
             r.userId, r.currency, r.amount, r.fee, Some(r.source), Some(r.destination))]
      ensures error == None <==>
        && old(ValidationError(db.Snapshot(), r)) == None
        && tier.Some? && tier.value != DailyLimit.Unverified && DailyLimit.WithinLimit(tier.value, dailyTotal, r.amount)
        && old(Execute(db.Snapshot(), r)).Success?
      ensures error == None ==> ApplyEvent(old(db.Snapshot()), Committed(r)) == Success(db.Snapshot())
      ensures error != None ==> db.Snapshot() == old(db.Snapshot())
    {
      if r.source !in db.wallets || r.destination !in db.wallets { return Some(Refused(WalletNotFound)); }
      if tier == None { return Some(UserNotFound); }
      var source, destination := db.wallets[r.source], db.wallets[r.destination];
      if source.userId != r.userId { return Some(Refused(AccessDenied)); }
      if r.source == r.destination { return Some(Refused(SameWallet)); }
      if source.currency != destination.currency { return Some(Refused(CurrencyMismatch)); }
      if r.amount <= 0 { return Some(Refused(NonPositiveAmount)); }
      if tier.value == DailyLimit.Unverified { return Some(KycRequired); }
      if !DailyLimit.WithinLimit(tier.value, dailyTotal, r.amount) { return Some(LimitExceeded); }

      var totalDebit := r.amount + r.fee;
      var saved := db.Snapshot();
      db.transfers := db.transfers[r.transferId := InternalRow(r, Processing)];
      var debited := walletsService.Debit(r.source, r.userId, totalDebit, InternalDebit, r.transferId);
      if debited.Failure? {
        db.Restore(saved);
        return Some(Refused(debited.error));
      }
      var credited := walletsService.Credit(r.destination, r.amount, InternalCredit, r.transferId);
      if credited.Failure? {
        db.Restore(saved);
        return Some(Refused(credited.error));
      }
      db.UpdateStatus(r.transferId, Completed);
      error := None;
    }
  }

  class PaymentsService {
    const db: Database
    const walletsService: WalletsService

    constructor (walletsService: WalletsService)
      ensures this.walletsService == walletsService && db == walletsService.db
    {
      this.walletsService, this.db := walletsService, walletsService.db;
    }

    /** Inserts a PENDING row; no balance moves until the provider confirms. `blocked` is what the fraud
        rules say, `enqueued` whether the job reached the queue: when it did not, the caller sees an
        error although the row is there. */
    method InitiateDeposit(id: TransferId, userId: UserId, userExists: bool, blocked: bool, walletId: WalletId,
                           amount: int, fee: int, currency: string, enqueued: bool)
        returns (error: Option<ServiceError>)
      requires id !in db.transfers
      modifies db
      ensures db.wallets == old(db.wallets) && db.ledger == old(db.ledger)
      ensures var saved :=
          && userExists && !blocked && walletId in db.wallets && db.wallets[walletId].userId == userId
          && Code(db.wallets[walletId].currency) == currency && amount > 0;
        && (error == None <==> saved && enqueued)
        && db.transfers == if saved
             then old(db.transfers)[id := Transfer(
               Deposit, Pending, userId, currency, amount, fee, None, Some(walletId))]
             else old(db.transfers)
      ensures var initiated := DepositInitiated(id, userId, walletId, amount, fee, currency);
        var inserted := old(ApplyEvent(db.Snapshot(), initiated));
        var saved := userExists && !blocked && inserted.Success?;
        && (error == None <==> saved && enqueued)
        && (error == Some(NotifiedLate) <==> saved && !enqueued)
        && (saved ==> inserted == Success(db.Snapshot()))
        && (!saved ==> db.Snapshot() == old(db.Snapshot()))
    {
      if walletId !in db.wallets { return Some(Refused(WalletNotFound)); }
      var wallet := db.wallets[walletId];
      if wallet.userId != userId { return Some(Refused(AccessDenied)); }
      if Code(wallet.currency) != currency { return Some(Refused(CurrencyMismatch)); }
      if amount <= 0 { return Some(Refused(NonPositiveAmount)); }
      if !userExists { return Some(UserNotFound); }
      if blocked { return Some(Blocked); }
      db.transfers := db.transfers[id := DepositRow(userId, walletId, amount, fee, currency)];
      if !enqueued { return Some(NotifiedLate); }
      error := None;
    }

    /** When the job does not reach the queue, the caller sees an error although the debit is committed. */
    method InitiateWithdrawal(r: Request, userExists: bool, blocked: bool, enqueued: bool)
      returns (error: Option<ServiceError>)
      requires r.WithdrawalRequest? && r.transferId !in db.transfers && walletsService.db == db
      modifies db
      ensures var debited :=
          && userExists && !blocked && r.amount + r.fee > 0 && r.source in old(db.wallets)
          && var source := old(db.wallets)[r.source];
             source.userId == r.userId && source.status == Active && r.amount + r.fee <= source.balance - source.held;
        && (error == None <==> debited && enqueued)
        && (debited ==>
              var source := old(db.wallets)[r.source];
              var paid := source.balance - r.amount - r.fee;
              && db.wallets == old(db.wallets)[r.source := source.(balance := paid)]
              && db.ledger == old(db.ledger) + [
                   LedgerEntry(r.source, DebitEntry, WithdrawalEntry, r.amount + r.fee, paid, r.transferId)]
              && db.transfers == old(db.transfers)[r.transferId := Transfer(
                   Withdrawal, Processing, r.userId, r.currency, r.amount, r.fee, Some(r.source), None)])
      ensures var committed :=
          userExists && !blocked && old(ValidationError(db.Snapshot(), r)) == None
            && old(Execute(db.Snapshot(), r)).Success?;
        && (error == None <==> committed && enqueued)
        && (error == Some(NotifiedLate) <==> committed && !enqueued)
        && (committed ==> ApplyEvent(old(db.Snapshot()), Committed(r)) == Success(db.Snapshot()))
        && (!committed ==> db.Snapshot() == old(db.Snapshot()))
    {
      if r.source !in db.wallets { return Some(Refused(WalletNotFound)); }
      if db.wallets[r.source].userId != r.userId { return Some(Refused(AccessDenied)); }
      if !userExists { return Some(UserNotFound); }
      if blocked { return Some(Blocked); }
      var totalDebit := r.amount + r.fee;
      var saved := db.Snapshot();
      db.transfers := db.transfers[r.transferId := WithdrawalRow(r)];
      var debited := walletsService.Debit(r.source, r.userId, totalDebit, WithdrawalEntry, r.transferId);
      if debited.Failure? {
        db.Restore(saved);
        return Some(Refused(debited.error));
      }
      if !enqueued {
        // The rollback in the catch block comes after the commit and undoes nothing.
        return Some(NotifiedLate);
      }
      error := None;
    }

    /** Returns silently unless the row is PENDING; a rolled-back or late-notified credit throws. The credit is the
        amount less the fee, and comes with the row's COMPLETED or not at all. */
    method CompleteDeposit(id: TransferId, input: Input) returns (threw: bool)
      requires walletsService.db == db
      modifies db
      ensures var pending := id in old(db.transfers) && old(db.transfers)[id].status == Pending;
        var credited :=
          && pending && input.stored && old(db.transfers)[id].destination.Some?
          && var row := old(db.transfers)[id];
             && row.amount - row.fee > 0 && row.destination.value in old(db.wallets)
             && old(db.wallets)[row.destination.value].status != Closed;
        && (threw <==> pending && !(credited && input.queued))
        && (!credited ==> db.Snapshot() == old(db.Snapshot()))
        && (credited ==>
              var row := old(db.transfers)[id];
              var wallet := old(db.wallets)[row.destination.value];
              var received := wallet.balance + (row.amount - row.fee);
              && db.wallets == old(db.wallets)[row.destination.value := wallet.(balance := received)]
              && db.ledger == old(db.ledger) + [
                   LedgerEntry(row.destination.value, CreditEntry, DepositEntry, row.amount - row.fee, received, id)]
              && db.transfers == old(db.transfers)[id := row.(status := Completed)])
      ensures (db.Snapshot(), if threw then Raised else Finished) == Completion(old(db.Snapshot()), id, input)
    {
      if id !in db.transfers || db.transfers[id].status != Pending {
        return false;
      }
      var transfer := db.transfers[id];
      var saved := db.Snapshot();
      var request := CreditRequest(saved, id);
      var credited := walletsService.Credit(request.destination, request.amount - request.fee, DepositEntry, id);
      if credited.Failure? {
        db.Restore(saved);
        return true;
      }
      db.UpdateStatus(id, Completed);
      if !input.stored {
        db.Restore(saved);
        return true;
      }
      return !input.queued;
    }
  }

  /** What completeDeposit's three steps come to when nothing interrupts them. */
  function Completion(s: Store, id: TransferId, input: Input): (Store, Phase) {
    if id !in s.transfers || s.transfers[id].status != Pending then (s, Finished)
    else if !input.stored then (s, Raised)
    else match Execute(s, CreditRequest(s, id))
      case Failure(_) => (s, Raised)
      case Success(s') => (s', if input.queued then Finished else Raised)
  }

  lemma CompletionIsThreeSteps(s: Store, w: Worker, input: Input, n: nat)
    requires w.phase == Checking && n >= 3
    ensures Uninterrupted(AS_WRITTEN, s, w, input, n) == Completion(s, w.transferId, input)
  {
    var checked := WorkerStep(AS_WRITTEN, s, w, input);
    var w1 := w.(phase := checked.phase);
    assert Uninterrupted(AS_WRITTEN, s, w, input, n) == Uninterrupted(AS_WRITTEN, s, w1, input, n - 1);
    if checked.phase == Crediting {
      var credited := WorkerStep(AS_WRITTEN, s, w1, input);
      var w2 := w1.(phase := credited.phase);
      assert Uninterrupted(AS_WRITTEN, s, w1, input, n - 1)
        == Uninterrupted(AS_WRITTEN, credited.store, w2, input, n - 2);
      if credited.phase == Notifying {
        var w3 := w2.(phase := WorkerStep(AS_WRITTEN, credited.store, w2, input).phase);
        assert Uninterrupted(AS_WRITTEN, credited.store, w2, input, n - 2)
            == Uninterrupted(AS_WRITTEN, credited.store, w3, input, n - 3);
      }
    }
  }

  lemma OneStep(s: Store, w: Worker, input: Input, n: nat)
    requires n > 0 && w.phase != Raised && w.phase != Finished
    ensures var effect := WorkerStep(AS_WRITTEN, s, w, input);
      Uninterrupted(AS_WRITTEN, s, w, input, n) ==
        Uninterrupted(AS_WRITTEN, effect.store, w.(phase := effect.phase), input, n - 1)
  {
  }

  class PaymentsProcessor {
    const db: Database
    const paymentsService: PaymentsService

    constructor (paymentsService: PaymentsService)
      ensures this.paymentsService == paymentsService && db == paymentsService.db
    {
      this.paymentsService, this.db := paymentsService, paymentsService.db;
    }

    /** One attempt of a deposit job, uninterrupted, is its worker's steps one after the other. As the row is
        PROCESSING when completeDeposit sees it, a charge that succeeded leaves it there. */
    method HandleDeposit(id: TransferId, attemptsMade: nat, input: Input) returns (threw: bool)
      requires paymentsService.db == db && paymentsService.walletsService.db == db
      modifies db
      ensures db.wallets == old(db.wallets) && db.ledger == old(db.ledger)
      ensures db.transfers == old(
        if id !in db.transfers || !input.marked then db.transfers
        else db.transfers[id := db.transfers[id].(
          status := if input.outcome == ChargeFailed && input.stored then Failed else Processing)])
      ensures threw <==>
        !input.marked || input.outcome == ChargeFailed || (input.outcome == ChargePending && !input.stored)
      ensures (db.Snapshot(), if threw then Raised else Finished)
           == Uninterrupted(AS_WRITTEN, old(db.Snapshot()),
                            Worker(DepositJob, id, attemptsMade, false, Ready), input, 5)
    {
      ghost var job := Worker(DepositJob, id, attemptsMade, false, Ready);
      OneStep(db.Snapshot(), job, input, 5);
      if !input.marked { return true; }
      db.UpdateStatus(id, Processing);
      OneStep(db.Snapshot(), job.(phase := Charging), input, 4);
      match input.outcome
      case ChargeSucceeded =>
        CompletionIsThreeSteps(db.Snapshot(), job.(phase := Checking), input, 3);
        threw := paymentsService.CompleteDeposit(id, input);
      case ChargePending =>
        OneStep(db.Snapshot(), job.(phase := Updating(Processing)), input, 3);
        if !input.stored { return true; }
        db.UpdateStatus(id, Processing);
        threw := false;
      case ChargeFailed =>
        OneStep(db.Snapshot(), job.(phase := Updating(Failed)), input, 3);
        if !input.stored { return true; }
        db.UpdateStatus(id, Failed);
        threw := true;
    }

    /** Anything but an immediate success is a failure. */
    method HandleWithdrawal(id: TransferId, attemptsMade: nat, input: Input) returns (threw: bool)
      modifies db
      ensures db.wallets == old(db.wallets) && db.ledger == old(db.ledger)
      ensures db.transfers == old(
        if id !in db.transfers || !input.stored then db.transfers
        else db.transfers[id := db.transfers[id].(
          status := if input.outcome == ChargeSucceeded then Completed else Failed)])
      ensures threw <==> !(input.outcome == ChargeSucceeded && input.stored && input.queued)
      ensures (db.Snapshot(), if threw then Raised else Finished)
           == Uninterrupted(AS_WRITTEN, old(db.Snapshot()),
                            Worker(WithdrawalJob, id, attemptsMade, false, Ready), input, 3)
    {
      ghost var job := Worker(WithdrawalJob, id, attemptsMade, false, Ready);
      OneStep(db.Snapshot(), job, input, 3);
      if input.outcome == ChargeSucceeded {
        OneStep(db.Snapshot(), job.(phase := Updating(Completed)), input, 2);
        if !input.stored { return true; }
        db.UpdateStatus(id, Completed);
        OneStep(db.Snapshot(), job.(phase := Notifying), input, 1);
        threw := !input.queued;
      } else {
        OneStep(db.Snapshot(), job.(phase := Updating(Failed)), input, 2);
        if !input.stored { return true; }
        db.UpdateStatus(id, Failed);
        threw := true;
      }
    }

    /** The queue calls this after every failed attempt, with the attempts made so far. */
    method OnFailed(task: Task, id: TransferId, attemptsMade: nat, input: Input)
      requires !task.WebhookJob? && attemptsMade > 0
      modifies db
      ensures db.wallets == old(db.wallets) && db.ledger == old(db.ledger)
      ensures db.transfers == old(
        if attemptsMade < 3 || !input.stored || id !in db.transfers then db.transfers
        else db.transfers[id := db.transfers[id].(status := Failed)])
      ensures db.Snapshot()
           == HookStep(AS_WRITTEN, old(db.Snapshot()), Worker(task, id, attemptsMade - 1, false, Raised), input).store
    {
      if attemptsMade >= 3 && input.stored {
        db.UpdateStatus(id, Failed);
      }
    }
  }

  class WebhooksProcessor {
    const db: Database
    const paymentsService: PaymentsService

    constructor (paymentsService: PaymentsService)
      ensures this.paymentsService == paymentsService && db == paymentsService.db
    {
      this.paymentsService, this.db := paymentsService, paymentsService.db;
    }

    /** A PROCESSING withdrawal reported successful becomes COMPLETED, a row that is not final and is reported
        failed becomes FAILED, and nothing else changes: as written also a deposit's success changes nothing,
        since completeDeposit wants the row PENDING. */
    method ProcessEvent(id: TransferId, report: Report, attemptsMade: nat, input: Input) returns (threw: bool)
      requires paymentsService.db == db && paymentsService.walletsService.db == db
      modifies db
      ensures db.wallets == old(db.wallets) && db.ledger == old(db.ledger)
      ensures var known := id in old(db.transfers);
        var succeeds := known && report == ReportedSuccess
          && old(db.transfers)[id].status == Processing && old(db.transfers)[id].kind != Deposit;
        var fails := known && report == ReportedFailure
          && old(db.transfers)[id].status != Completed && old(db.transfers)[id].status != Failed;
        && (threw <==> (succeeds || fails) && !input.stored)
        && db.transfers ==
             if succeeds && input.stored then old(db.transfers)[id := old(db.transfers)[id].(status := Completed)]
             else if fails && input.stored then old(db.transfers)[id := old(db.transfers)[id].(status := Failed)]
             else old(db.transfers)
      ensures (db.Snapshot(), if threw then Raised else Finished)
           == Uninterrupted(AS_WRITTEN, old(db.Snapshot()),
                            Worker(WebhookJob(report), id, attemptsMade, false, Ready), input, 4)
    {
      ghost var job := Worker(WebhookJob(report), id, attemptsMade, false, Ready);
      OneStep(db.Snapshot(), job, input, 4);
      threw := false;
      if id !in db.transfers { return; }
      var transfer := db.transfers[id];
      if transfer.status == Completed || transfer.status == Failed { return; }
      if report == ReportedSuccess && transfer.status == Processing {
        if transfer.kind == Deposit {
          CompletionIsThreeSteps(db.Snapshot(), job.(phase := Checking), input, 3);
          threw := paymentsService.CompleteDeposit(id, input);
        } else {
          OneStep(db.Snapshot(), job.(phase := Updating(Completed)), input, 3);
          if !input.stored { return true; }
          db.UpdateStatus(id, Completed);
        }
      } else if report == ReportedFailure {
        OneStep(db.Snapshot(), job.(phase := Updating(Failed)), input, 3);
        if !input.stored { return true; }
        db.UpdateStatus(id, Failed);
      }
    }
  }
}
