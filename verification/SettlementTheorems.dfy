/** What every run of settlement keeps, and exactly when a deposit is credited once. */
module SettlementTheorems {
  import opened Wrappers
  import opened Ledger
  import opened LedgerInvariants
  import opened Settlement

  // ----- workers only ever act on rows of their own kind -----

  ghost predicate TaskMatches(s: Store, w: Worker) {
    && (w.task.WebhookJob? || OwnJob(s, w))
    && (w.phase == Charging ==> w.task == DepositJob)
    && (NearCredit(w) ==> w.transferId in s.transfers && s.transfers[w.transferId].kind == Deposit)
    && (w.phase.Updating? ==> MayUpdate(s, w.transferId, w.phase.target))
  }

  ghost predicate OwnJob(s: Store, w: Worker) {
    && w.transferId in s.transfers && s.transfers[w.transferId].kind != InternalTransfer
    && JobFor(s.transfers[w.transferId]) == w.task
  }

  predicate NearCredit(w: Worker) {
    w.phase == Checking || w.phase == Crediting || (w.phase == Notifying && w.task.WebhookJob?)
  }

  ghost predicate MayUpdate(s: Store, id: TransferId, target: TransferStatus) {
    && id in s.transfers
    && match s.transfers[id].kind
       case Deposit => target == Failed || target == Processing
       case Withdrawal => target == Failed || target == Completed
       case InternalTransfer => false
  }

  ghost predicate SettlementInv(st: State) {
    StoreInv(st.store) && forall w :: w in st.workers ==> TaskMatches(st.store, st.workers[w])
  }

  /** The change one worker step makes to the tables: nothing, a status of a deposit or withdrawal,
      or the whole credit transaction of a deposit. */
  ghost predicate StepChange(s: Store, s': Store, id: TransferId) {
    || s' == s
    || (exists status :: ApplyEvent(s, StatusWritten(id, status)) == Success(s'))
    || (ValidationError(s, CreditRequest(s, id)).None? && ApplyEvent(s, Committed(CreditRequest(s, id))) == Success(s'))
  }

  lemma WriteIsEvent(p: Policy, s: Store, id: TransferId, status: TransferStatus)
    requires id in s.transfers && s.transfers[id].kind != InternalTransfer
    ensures StepChange(s, WriteStatus(p, s, id, status), id)
  {
    assert ApplyEvent(s, StatusWritten(id, status)) == Success(SetStatus(s, id, status));
  }

  lemma CreditIsValid(s: Store, id: TransferId)
    requires StoreInv(s) && id in s.transfers && s.transfers[id].kind == Deposit
    ensures ValidationError(s, CreditRequest(s, id)).None?
  {
    assert RowSettled(s, s.transfers[id], Legs(s.ledger, id));
  }

  /** Outside the credit a step writes at most one status, on a row there is. */
  lemma StepWrites(p: Policy, s: Store, w: Worker, input: Input) returns (status: TransferStatus)
    requires TaskMatches(s, w) && w.phase != Crediting && WorkerStep(p, s, w, input).store != s
    ensures WorkerStep(p, s, w, input).store == WriteStatus(p, s, w.transferId, status)
    ensures w.transferId in s.transfers && s.transfers[w.transferId].kind != InternalTransfer
  {
    status := if w.phase == Ready then Processing else if w.phase.Updating? then w.phase.target else Failed;
  }

  lemma WorkerStepIsEvent(p: Policy, s: Store, w: Worker, input: Input)
    requires StoreInv(s) && TaskMatches(s, w)
    ensures StepChange(s, WorkerStep(p, s, w, input).store, w.transferId)
  {
    if w.phase == Crediting {
      CreditIsValid(s, w.transferId);
    } else if WorkerStep(p, s, w, input).store != s {
      var status := StepWrites(p, s, w, input);
      WriteIsEvent(p, s, w.transferId, status);
    }
  }

  lemma StepChangeKeeps(s: Store, s': Store, id: TransferId)
    requires StoreInv(s) && StepChange(s, s', id)
    ensures StoreInv(s') && RowsPersist(s, s') && WalletsPersist(s, s')
  {
    if s' == s {
    } else if exists status :: ApplyEvent(s, StatusWritten(id, status)) == Success(s') {
      var status :| ApplyEvent(s, StatusWritten(id, status)) == Success(s');
      RowEventKeeps(s, StatusWritten(id, status));
      EventPersists(s, StatusWritten(id, status));
    } else {
      CommitKeeps(s, CreditRequest(s, id));
      EventPersists(s, Committed(CreditRequest(s, id)));
    }
  }

  lemma TaskStillMatches(s: Store, s': Store, w: Worker)
    requires TaskMatches(s, w) && RowsPersist(s, s')
    ensures TaskMatches(s', w)
  {
  }

  lemma WebhookStartsOnTask(s: Store, w: Worker)
    requires w.task.WebhookJob?
    requires w.transferId in s.transfers && s.transfers[w.transferId].kind == InternalTransfer
      ==> s.transfers[w.transferId].status == Completed
    ensures TaskMatches(s, w.(phase := WebhookStep(s, w).phase))
  {
  }

  lemma WorkerStaysOnTask(p: Policy, s: Store, w: Worker, input: Input, made: nat)
    requires StoreInv(s) && TaskMatches(s, w)
    requires RowsPersist(s, WorkerStep(p, s, w, input).store)
    ensures TaskMatches(WorkerStep(p, s, w, input).store,
      w.(phase := WorkerStep(p, s, w, input).phase, attemptsMade := made))
  {
    if w.phase == Ready && w.task.WebhookJob? {
      if w.transferId in s.transfers { assert RowSettled(s, s.transfers[w.transferId], Legs(s.ledger, w.transferId)); }
      WebhookStartsOnTask(s, w);
    } else {
      OtherStepsStayOnTask(p, s, w, input, made);
    }
  }

  lemma OtherStepsStayOnTask(p: Policy, s: Store, w: Worker, input: Input, made: nat)
    requires TaskMatches(s, w) && !(w.phase == Ready && w.task.WebhookJob?)
    requires RowsPersist(s, WorkerStep(p, s, w, input).store)
    ensures TaskMatches(WorkerStep(p, s, w, input).store,
      w.(phase := WorkerStep(p, s, w, input).phase, attemptsMade := made))
  {
  }

  lemma TakeKeeps(p: Policy, st: State, a: Action)
    requires SettlementInv(st) && Enabled(st, a)
    ensures SettlementInv(Take(p, st, a))
  {
    var st' := Take(p, st, a);
    match a
    case Environment(e) =>
      if e.Committed? { CommitKeeps(st.store, e.request); } else { RowEventKeeps(st.store, e); }
      EventPersists(st.store, e);
      forall w | w in st'.workers ensures TaskMatches(st'.store, st'.workers[w]) {
        TaskStillMatches(st.store, st'.store, st.workers[w]);
      }
    case Enqueue(w, id) =>
    case Deliver(w, id, report) =>
    case Crash(w) =>
    case Work(w, input) => WorkKeeps(p, st, w, input);
  }

  lemma WorkKeeps(p: Policy, st: State, w: WorkerId, input: Input)
    requires SettlementInv(st) && w in st.workers
    ensures SettlementInv(Take(p, st, Work(w, input)))
  {
    var st' := Take(p, st, Work(w, input));
    WorkerStepIsEvent(p, st.store, st.workers[w], input);
    StepChangeKeeps(st.store, st'.store, st.workers[w].transferId);
    WorkerStaysOnTask(p, st.store, st.workers[w], input, st'.workers[w].attemptsMade);
    forall u | u in st'.workers ensures TaskMatches(st'.store, st'.workers[u]) {
      if u != w { TaskStillMatches(st.store, st'.store, st.workers[u]); }
    }
  }

  lemma {:induction false} RunKeepsBooks(p: Policy, actions: seq<Action>)
    ensures SettlementInv(Run(p, actions))
  {
    if actions == [] {
      EmptyStoreInv();
    } else {
      var before := actions[..|actions| - 1];
      RunKeepsBooks(p, before);
      if Enabled(Run(p, before), actions[|actions| - 1]) {
        TakeKeeps(p, Run(p, before), actions[|actions| - 1]);
      }
    }
  }

  // ----- withdrawals -----

  /** However many attempts, webhooks and failure hooks there are, and whatever the status says in the end,
      a withdrawal has exactly the one debit of its initiating transaction: FAILED reverses nothing. */
  lemma WithdrawalDebitedOnce(p: Policy, actions: seq<Action>, id: TransferId)
    requires id in Run(p, actions).store.transfers && Run(p, actions).store.transfers[id].kind == Withdrawal
    ensures var s := Run(p, actions).store;
      && s.transfers[id].source.Some?
      && Legs(s.ledger, id) ==
           [Leg(s.transfers[id].source.value, DebitEntry, WithdrawalEntry,
                s.transfers[id].amount + s.transfers[id].fee)]
  {
    RunKeepsBooks(p, actions);
    var s := Run(p, actions).store;
    assert RowSettled(s, s.transfers[id], Legs(s.ledger, id));
  }

  /** No worker step on anything but a deposit's credit touches balances or ledger. */
  lemma OnlyCreditsMoveMoney(p: Policy, actions: seq<Action>, w: WorkerId, input: Input)
    requires Enabled(Run(p, actions), Work(w, input))
    ensures var st, st' := Run(p, actions), Take(p, Run(p, actions), Work(w, input));
      && (st.workers[w].phase != Crediting ==>
            st'.store.ledger == st.store.ledger && st'.store.wallets == st.store.wallets)
      && (st.workers[w].phase == Crediting ==>
            st.workers[w].transferId in st.store.transfers
              && st.store.transfers[st.workers[w].transferId].kind == Deposit)
  {
    RunKeepsBooks(p, actions);
    var st := Run(p, actions);
    assert TaskMatches(st.store, st.workers[w]);
    if st.workers[w].phase != Crediting {
      StepOutsideCredit(p, st.store, st.workers[w], input);
    }
  }

  // ----- how deposits change -----

  /** Whatever else the system does, existing deposits keep their rows and entries, and new ones start
      PENDING without entries. */
  lemma EnvironmentSparesDeposits(s: Store, e: Event, id: TransferId)
    requires StoreInv(s) && IsEnvironment(s, e) && ApplyEvent(s, e).Success?
    requires id in ApplyEvent(s, e).value.transfers && ApplyEvent(s, e).value.transfers[id].kind == Deposit
    ensures var s' := ApplyEvent(s, e).value;
      && (id in s.transfers ==> s'.transfers[id] == s.transfers[id] && Legs(s'.ledger, id) == Legs(s.ledger, id))
      && (id !in s.transfers ==> s'.transfers[id].status == Pending && Legs(s'.ledger, id) == [])
  {
    if e.Committed? {
      ExecuteTables(s, e.request);
      ExecuteLegs(s, e.request, id);
    }
    if id !in s.transfers {
      NoEntriesNoLegs(s.ledger, id);
    }
  }

  lemma StepOutsideCredit(p: Policy, s: Store, w: Worker, input: Input)
    requires w.phase != Crediting
    ensures var s' := WorkerStep(p, s, w, input).store;
      && s'.ledger == s.ledger && s'.wallets == s.wallets && s'.transfers.Keys == s.transfers.Keys
      && forall id :: id in s.transfers && id != w.transferId ==> s'.transfers[id] == s.transfers[id]
  {
  }

  lemma StepOfCredit(p: Policy, s: Store, w: Worker, input: Input)
    requires w.phase == Crediting
    ensures var s' := WorkerStep(p, s, w, input).store;
      || s' == s
      || (Execute(s, CreditRequest(s, w.transferId)) == Success(s')
            && (p.checkUnderLock ==> Admits(p, StatusOf(s, w.transferId))))
  {
  }

  /** A worker step leaves every transfer but its own alone. */
  lemma StepSparesOthers(p: Policy, s: Store, w: Worker, input: Input, id: TransferId)
    requires StoreInv(s) && TaskMatches(s, w) && id != w.transferId
    ensures var s' := WorkerStep(p, s, w, input).store;
      && (id in s'.transfers <==> id in s.transfers)
      && (id in s.transfers ==> s'.transfers[id] == s.transfers[id])
      && Legs(s'.ledger, id) == Legs(s.ledger, id)
  {
    if w.phase == Crediting {
      StepOfCredit(p, s, w, input);
      if Execute(s, CreditRequest(s, w.transferId)).Success? {
        ExecuteTables(s, CreditRequest(s, w.transferId));
        ExecuteLegs(s, CreditRequest(s, w.transferId), id);
      }
    } else {
      StepOutsideCredit(p, s, w, input);
    }
  }

  /** A committed credit adds exactly one entry of amount - fee and completes the deposit. */
  lemma CreditAddsOneLeg(s: Store, id: TransferId)
    requires StoreInv(s) && id in s.transfers && s.transfers[id].kind == Deposit
    requires Execute(s, CreditRequest(s, id)).Success?
    ensures var s' := Execute(s, CreditRequest(s, id)).value;
      && s.transfers[id].destination.Some?
      && s'.transfers == s.transfers[id := s.transfers[id].(status := Completed)]
      && Legs(s'.ledger, id) == Legs(s.ledger, id) + [DepositLeg(s.transfers[id])]
  {
    CreditIsValid(s, id);
    ExecuteTables(s, CreditRequest(s, id));
    ExecuteLegs(s, CreditRequest(s, id), id);
  }

  // ----- exactly once, when it can be -----

  /** One credit of amount - fee if the deposit is COMPLETED, none otherwise. */
  ghost predicate CreditedIffCompleted(s: Store, id: TransferId)
    requires id in s.transfers
  {
    Legs(s.ledger, id) == if s.transfers[id].status == Completed && s.transfers[id].destination.Some?
                          then [DepositLeg(s.transfers[id])] else []
  }

  ghost predicate AllDepositsExact(s: Store) {
    forall id :: id in s.transfers && s.transfers[id].kind == Deposit ==> CreditedIffCompleted(s, id)
  }

  lemma LockedStepIsExact(p: Policy, s: Store, w: Worker, input: Input)
    requires p.checkUnderLock && p.completedIsFinal
    requires StoreInv(s) && TaskMatches(s, w) && AllDepositsExact(s)
    ensures AllDepositsExact(WorkerStep(p, s, w, input).store)
  {
    var s' := WorkerStep(p, s, w, input).store;
    WorkerStepIsEvent(p, s, w, input);
    StepChangeKeeps(s, s', w.transferId);
    forall id | id in s'.transfers && s'.transfers[id].kind == Deposit ensures CreditedIffCompleted(s', id) {
      if id != w.transferId {
        StepSparesOthers(p, s, w, input, id);
        assert CreditedIffCompleted(s, id);
      } else {
        assert CreditedIffCompleted(s, id);
        OwnDepositExact(p, s, w, input);
      }
    }
  }

  /** Outside the credit a step never completes a deposit, and does not touch one that is final. */
  lemma StatusOutsideCredit(p: Policy, s: Store, w: Worker, input: Input)
    requires w.phase != Crediting && TaskMatches(s, w)
    requires w.transferId in s.transfers && s.transfers[w.transferId].kind == Deposit
    ensures var s' := WorkerStep(p, s, w, input).store; var row := s.transfers[w.transferId];
      && w.transferId in s'.transfers
      && s'.transfers[w.transferId] == row.(status := s'.transfers[w.transferId].status)
      && (row.status != Completed ==> s'.transfers[w.transferId].status != Completed)
      && (row.status != Pending ==> s'.transfers[w.transferId].status != Pending)
      && (p.completedIsFinal && row.status == Completed ==> s'.transfers[w.transferId] == row)
  {
  }

  lemma CreditIsExact(s: Store, id: TransferId)
    requires StoreInv(s) && id in s.transfers && s.transfers[id].kind == Deposit && s.transfers[id].status != Completed
    requires CreditedIffCompleted(s, id) && Execute(s, CreditRequest(s, id)).Success?
    ensures var s' := Execute(s, CreditRequest(s, id)).value; id in s'.transfers && CreditedIffCompleted(s', id)
  {
    CreditAddsOneLeg(s, id);
  }

  lemma OwnDepositExact(p: Policy, s: Store, w: Worker, input: Input)
    requires p.checkUnderLock && p.completedIsFinal
    requires StoreInv(s) && TaskMatches(s, w)
    requires w.transferId in s.transfers && s.transfers[w.transferId].kind == Deposit
      && CreditedIffCompleted(s, w.transferId)
    ensures var s' := WorkerStep(p, s, w, input).store;
      w.transferId in s'.transfers && CreditedIffCompleted(s', w.transferId)
  {
    if w.phase == Crediting {
      StepOfCredit(p, s, w, input);
      if WorkerStep(p, s, w, input).store != s {
        CreditIsExact(s, w.transferId);
      }
    } else {
      StepOutsideCredit(p, s, w, input);
      StatusOutsideCredit(p, s, w, input);
    }
  }

  lemma {:induction false} LockedRunIsExact(p: Policy, actions: seq<Action>)
    requires p.checkUnderLock && p.completedIsFinal
    ensures AllDepositsExact(Run(p, actions).store)
  {
    if actions != [] {
      var before := actions[..|actions| - 1];
      var a := actions[|actions| - 1];
      LockedRunIsExact(p, before);
      RunKeepsBooks(p, before);
      var st := Run(p, before);
      if Enabled(st, a) {
        match a
        case Environment(e) =>
          forall id | id in Take(p, st, a).store.transfers && Take(p, st, a).store.transfers[id].kind == Deposit
            ensures CreditedIffCompleted(Take(p, st, a).store, id)
          {
            EnvironmentSparesDeposits(st.store, e, id);
          }
        case Enqueue(_, _) =>
        case Deliver(_, _, _) =>
        case Crash(_) =>
        case Work(w, input) => LockedStepIsExact(p, st.store, st.workers[w], input);
      }
    }
  }

  // ----- as written: nothing is ever credited -----

  /** With a guard that wants PENDING, a worker that gets near it has already made the row something else. */
  ghost predicate NeverAdmitted(st: State) {
    && st.store.ledger == []
    && (forall w :: w in st.store.wallets ==> st.store.wallets[w].balance == 0)
    && (forall id :: id in st.store.transfers && st.store.transfers[id].kind == Deposit
          ==> st.store.transfers[id].status != Completed)
    && (forall w :: w in st.workers ==> PastPending(st.store, st.workers[w]))
  }

  ghost predicate PastPending(s: Store, w: Worker) {
    && w.phase != Crediting
    && (w.phase == Charging || w.phase == Checking ==> StatusOf(s, w.transferId) != Pending)
  }

  lemma NothingToSpend(s: Store, r: Request)
    requires StoreInv(s) && Inserts(r) && forall w :: w in s.wallets ==> s.wallets[w].balance == 0
    ensures Execute(s, r).Failure?
  {
    if r.source in s.wallets {
      assert Balanced(s, r.source);
    }
  }

  lemma NeverBackToPending(p: Policy, s: Store, w: Worker, input: Input, id: TransferId)
    requires w.phase != Crediting && TaskMatches(s, w) && StatusOf(s, id) != Pending
    ensures StatusOf(WorkerStep(p, s, w, input).store, id) != Pending
  {
    StepOutsideCredit(p, s, w, input);
  }

  lemma OwnPastPending(p: Policy, s: Store, w: Worker, input: Input, made: nat)
    requires !p.admitsProcessing && TaskMatches(s, w) && PastPending(s, w)
    ensures var effect := WorkerStep(p, s, w, input);
      PastPending(effect.store, w.(phase := effect.phase, attemptsMade := made))
  {
  }

  lemma UnadmittedStep(p: Policy, st: State, w: WorkerId, input: Input)
    requires !p.admitsProcessing && SettlementInv(st) && NeverAdmitted(st) && w in st.workers
    ensures NeverAdmitted(Take(p, st, Work(w, input)))
  {
    var st' := Take(p, st, Work(w, input));
    var worker := st.workers[w];
    assert TaskMatches(st.store, worker) && PastPending(st.store, worker);
    StepOutsideCredit(p, st.store, worker, input);
    if worker.transferId in st.store.transfers && st.store.transfers[worker.transferId].kind == Deposit {
      StatusOutsideCredit(p, st.store, worker, input);
    }
    forall u | u in st'.workers ensures PastPending(st'.store, st'.workers[u]) {
      if u == w {
        OwnPastPending(p, st.store, worker, input, st'.workers[w].attemptsMade);
      } else {
        assert PastPending(st.store, st.workers[u]);
        if StatusOf(st.store, st.workers[u].transferId) != Pending {
          NeverBackToPending(p, st.store, worker, input, st.workers[u].transferId);
        }
      }
    }
  }

  lemma {:induction false} UnadmittedRun(p: Policy, actions: seq<Action>)
    requires !p.admitsProcessing
    ensures NeverAdmitted(Run(p, actions))
  {
    if actions != [] {
      var before := actions[..|actions| - 1];
      var a := actions[|actions| - 1];
      UnadmittedRun(p, before);
      RunKeepsBooks(p, before);
      var st := Run(p, before);
      if Enabled(st, a) {
        match a
        case Environment(e) => UnadmittedEnvironment(st, e);
        case Enqueue(_, _) =>
        case Deliver(_, _, _) =>
        case Crash(_) =>
        case Work(w, input) => UnadmittedStep(p, st, w, input);
      }
    }
  }

  lemma UnadmittedEnvironment(st: State, e: Event)
    requires SettlementInv(st) && NeverAdmitted(st) && Enabled(st, Environment(e))
    ensures NeverAdmitted(st.(store := ApplyEvent(st.store, e).value))
  {
    if e.Committed? {
      NothingToSpend(st.store, e.request);
    }
    var st' := st.(store := ApplyEvent(st.store, e).value);
    forall w | w in st'.workers ensures PastPending(st'.store, st'.workers[w]) {
      assert PastPending(st.store, st.workers[w]);
      assert TaskMatches(st.store, st.workers[w]);
    }
  }

  /** As written: no deposit is ever credited or COMPLETED. And since deposits are the only way money
      comes in, no wallet ever holds any: the ledger stays empty. */
  lemma AsWrittenNothingIsEverCredited(actions: seq<Action>)
    ensures var s := Run(AS_WRITTEN, actions).store;
      && (forall id :: id in s.transfers && s.transfers[id].kind == Deposit ==>
            s.transfers[id].status != Completed && Legs(s.ledger, id) == [])
      && s.ledger == [] && (forall w :: w in s.wallets ==> s.wallets[w].balance == 0)
  {
    UnadmittedRun(AS_WRITTEN, actions);
  }
}
