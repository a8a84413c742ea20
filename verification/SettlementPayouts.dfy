/** How often the provider can pay one withdrawal out, by what may go wrong: exact bounds over every run. */
module SettlementPayouts {
  import opened Wrappers
  import opened Ledger
  import opened LedgerInvariants
  import opened Settlement
  import opened SettlementTheorems
  import opened SettlementPolicies

  predicate IsJob(w: Worker) {
    !w.task.WebhookJob?
  }

  /** An attempt may have paid, or come to be paid, and still count as failed. */
  predicate Retries(f: Faults) {
    f.writesFail || f.queueRefuses || f.pendingPays
  }

  /** One payout per attempt that can follow a paid one, and one more for the rerun after a crash. */
  function PayoutBound(f: Faults): nat {
    (if Retries(f) then 3 else 1) + (if f.workersCrash then 1 else 0)
  }

  function Spare(w: Worker): nat {
    if w.stalled then 1 else 0
  }

  predicate PaidPhase(phase: Phase) {
    phase == Updating(Completed) || phase == Notifying || phase == Finished
  }

  /** `paid` fits the attempts the job has used up, or the one attempt that went well. */
  predicate WithinBudget(f: Faults, w: Worker, paid: nat) {
    && (w.stalled ==> f.workersCrash)
    && if Retries(f) then
         match w.phase
         case Ready => w.attemptsMade <= 2 && paid <= w.attemptsMade + Spare(w)
         case Finished => paid <= 3 + Spare(w)
         case _ => w.attemptsMade <= 2 && paid <= w.attemptsMade + 1 + Spare(w)
       else if PaidPhase(w.phase) then paid <= 1 + Spare(w)
       else w.task == WithdrawalJob ==> paid <= Spare(w)
  }

  ghost predicate PayoutInv(f: Faults, st: State) {
    && (forall w, u :: w in st.workers && u in st.workers && w != u && IsJob(st.workers[w]) && IsJob(st.workers[u])
          ==> st.workers[w].transferId != st.workers[u].transferId)
    && (forall w :: w in st.workers && IsJob(st.workers[w]) ==> st.workers[w].transferId in st.enqueued)
    && (forall id :: id in st.payouts ==> id in st.enqueued && st.payouts[id] <= PayoutBound(f))
    && (forall w :: w in st.workers && IsJob(st.workers[w]) ==>
          WithinBudget(f, st.workers[w], Paid(st, st.workers[w].transferId)))
  }

  lemma StepStaysWithinBudget(p: Policy, f: Faults, s: Store, w: Worker, input: Input, paid: nat)
    requires w.task == WithdrawalJob && TaskMatches(s, w) && PermitsInput(f, input) && WithinBudget(f, w, paid)
    ensures var effect := WorkerStep(p, s, w, input);
      var made := if w.phase == Raised then w.attemptsMade + 1 else w.attemptsMade;
      var w' := w.(phase := effect.phase, attemptsMade := made);
      WithinBudget(f, w', if effect.paid then paid + 1 else paid)
      && (effect.paid ==> paid + 1 <= PayoutBound(f))
  {
  }

  lemma OnlyJobsPay(p: Policy, s: Store, w: Worker, input: Input)
    requires TaskMatches(s, w) && WorkerStep(p, s, w, input).paid
    ensures w.task == WithdrawalJob
  {
  }

  lemma DepositJobStaysWithinBudget(p: Policy, f: Faults, s: Store, w: Worker, input: Input, paid: nat)
    requires w.task == DepositJob && TaskMatches(s, w) && WithinBudget(f, w, paid)
    ensures var effect := WorkerStep(p, s, w, input);
      var made := if w.phase == Raised then w.attemptsMade + 1 else w.attemptsMade;
      !effect.paid && (paid == 0 ==> WithinBudget(f, w.(phase := effect.phase, attemptsMade := made), paid))
  {
  }

  /** A crash costs the rerun, no more. */
  lemma CrashStaysWithinBudget(f: Faults, w: Worker, paid: nat)
    requires WithinBudget(f, w, paid) && !w.stalled && f.workersCrash && w.phase != Ready && w.phase != Finished
    ensures WithinBudget(f, w.(phase := Ready, stalled := true), paid)
  {
  }

  /** Only withdrawals are ever paid out. */
  ghost predicate DepositsUnpaid(st: State) {
    forall w :: w in st.workers && st.workers[w].task == DepositJob ==> Paid(st, st.workers[w].transferId) == 0
  }

  /** A worker that keeps its task and transfer, and its budget if it is a job, keeps the invariant. */
  lemma WorkerMoved(f: Faults, st: State, w: WorkerId, after: Worker, paid: bool, st': State)
    requires PayoutInv(f, st) && DepositsUnpaid(st) && w in st.workers
    requires after.task == st.workers[w].task && after.transferId == st.workers[w].transferId
    requires paid ==> after.task == WithdrawalJob && Paid(st, after.transferId) + 1 <= PayoutBound(f)
    requires IsJob(after) ==> WithinBudget(f, after, Paid(st, after.transferId) + (if paid then 1 else 0))
    requires st'.workers == st.workers[w := after] && st'.enqueued == st.enqueued
    requires st'.payouts == if paid then st.payouts[after.transferId := Paid(st, after.transferId) + 1] else st.payouts
    ensures PayoutInv(f, st') && DepositsUnpaid(st')
  {
  }

  lemma WorkKeepsPayouts(p: Policy, f: Faults, st: State, w: WorkerId, input: Input)
    requires PayoutInv(f, st) && DepositsUnpaid(st) && PermitsInput(f, input)
    requires w in st.workers && TaskMatches(st.store, st.workers[w])
    ensures PayoutInv(f, Take(p, st, Work(w, input))) && DepositsUnpaid(Take(p, st, Work(w, input)))
  {
    var worker := st.workers[w];
    var effect := WorkerStep(p, st.store, worker, input);
    match worker.task {
      case WithdrawalJob =>
        StepStaysWithinBudget(p, f, st.store, worker, input, Paid(st, worker.transferId));
      case DepositJob =>
        DepositJobStaysWithinBudget(p, f, st.store, worker, input, Paid(st, worker.transferId));
      case WebhookJob(_) =>
        if effect.paid { OnlyJobsPay(p, st.store, worker, input); }
    }
    var st' := Take(p, st, Work(w, input));
    WorkerMoved(f, st, w, st'.workers[w], effect.paid, st');
  }

  lemma EnqueueKeepsPayouts(p: Policy, f: Faults, st: State, w: WorkerId, id: TransferId)
    requires PayoutInv(f, st) && DepositsUnpaid(st) && Enabled(st, Enqueue(w, id))
    ensures PayoutInv(f, Take(p, st, Enqueue(w, id))) && DepositsUnpaid(Take(p, st, Enqueue(w, id)))
  {
    assert id !in st.payouts;
  }

  lemma CrashKeepsPayouts(p: Policy, f: Faults, st: State, w: WorkerId)
    requires PayoutInv(f, st) && DepositsUnpaid(st) && Enabled(st, Crash(w)) && f.workersCrash
    ensures PayoutInv(f, Take(p, st, Crash(w))) && DepositsUnpaid(Take(p, st, Crash(w)))
  {
    if IsJob(st.workers[w]) {
      CrashStaysWithinBudget(f, st.workers[w], Paid(st, st.workers[w].transferId));
    }
    WorkerMoved(f, st, w, Take(p, st, Crash(w)).workers[w], false, Take(p, st, Crash(w)));
  }

  lemma TakeKeepsPayouts(p: Policy, f: Faults, st: State, a: Action)
    requires SettlementInv(st) && PayoutInv(f, st) && DepositsUnpaid(st) && Enabled(st, a) && Permits(f, a)
    ensures PayoutInv(f, Take(p, st, a)) && DepositsUnpaid(Take(p, st, a))
  {
    match a
    case Environment(_) =>
    case Enqueue(w, id) => EnqueueKeepsPayouts(p, f, st, w, id);
    case Deliver(_, _, _) =>
    case Work(w, input) =>
      assert TaskMatches(st.store, st.workers[w]);
      WorkKeepsPayouts(p, f, st, w, input);
    case Crash(w) => CrashKeepsPayouts(p, f, st, w);
  }

  /** In every run, however it retries, the provider pays a withdrawal out at most that often. */
  lemma {:induction false} PayoutsWithinBound(p: Policy, f: Faults, actions: seq<Action>)
    requires AllPermitted(f, actions)
    ensures PayoutInv(f, Run(p, actions)) && DepositsUnpaid(Run(p, actions))
    ensures forall id :: Paid(Run(p, actions), id) <= PayoutBound(f)
  {
    if actions != [] {
      var before := actions[..|actions| - 1];
      var a := actions[|actions| - 1];
      PayoutsWithinBound(p, f, before);
      RunKeepsBooks(p, before);
      assert Permits(f, a);
      if Enabled(Run(p, before), a) {
        TakeKeepsPayouts(p, f, Run(p, before), a);
      }
    }
  }

  // ----- where nothing is ever credited, nothing is paid out either -----

  lemma {:induction false} NothingCreditedNothingPaid(p: Policy, actions: seq<Action>)
    requires !p.admitsProcessing
    ensures Run(p, actions).payouts == map[]
  {
    if actions != [] {
      var before := actions[..|actions| - 1];
      var a := actions[|actions| - 1];
      NothingCreditedNothingPaid(p, before);
      var st := Run(p, before);
      if Enabled(st, a) && a.Work? {
        RunKeepsBooks(p, before);
        UnadmittedRun(p, before);
        if WorkerStep(p, st.store, st.workers[a.worker], a.input).paid {
          PayingNeedsADebit(p, st.store, st.workers[a.worker], a.input);
        }
      }
    }
  }

  lemma PayingNeedsADebit(p: Policy, s: Store, w: Worker, input: Input)
    requires StoreInv(s) && TaskMatches(s, w) && WorkerStep(p, s, w, input).paid
    ensures s.ledger != []
  {
    OnlyJobsPay(p, s, w, input);
    assert RowSettled(s, s.transfers[w.transferId], Legs(s.ledger, w.transferId));
  }

  // ----- the bounds are reached -----

  predicate FreshWithdrawalJob(st: State, w: WorkerId, made: nat) {
    w in st.workers && st.workers[w].task == WithdrawalJob && st.workers[w].phase == Ready
    && st.workers[w].attemptsMade == made
  }

  /** The outcome cannot be written, the notification cannot be queued, or the payment comes later. */
  function Unlucky(f: Faults): Input {
    if f.writesFail || f.queueRefuses then Input(ChargeSucceeded, false, true, !f.writesFail, !f.queueRefuses)
    else Input(ChargePending, f.pendingPays, true, true, true)
  }

  /** Such an attempt counts as failed although it is paid. */
  lemma PaidAndRetried(p: Policy, f: Faults, st: State, w: WorkerId, made: nat) returns (st': State)
    requires Reachable(p, f, st) && FreshWithdrawalJob(st, w, made) && made < 2 && Retries(f)
    ensures Reachable(p, f, st') && FreshWithdrawalJob(st', w, made + 1)
    ensures st'.workers[w].transferId == st.workers[w].transferId
    ensures Paid(st', st.workers[w].transferId) == Paid(st, st.workers[w].transferId) + 1
    ensures RowsPersist(st.store, st'.store)
  {
    var step := Work(w, Unlucky(f));
    ReachNext(p, f, st, step);
    var paid := Take(p, st, step);
    ReachNext(p, f, paid, step);
    var raised := Take(p, paid, step);
    if f.queueRefuses && !f.writesFail {
      ReachNext(p, f, raised, step);
      raised := Take(p, raised, step);
    }
    ReachNext(p, f, raised, step);
    st' := Take(p, raised, step);
  }

  /** From every withdrawal job about to start, three payouts are possible, although the wallet was
      debited once. */
  lemma ThreePayoutsHappen(p: Policy, f: Faults, st: State, w: WorkerId) returns (st': State)
    requires Reachable(p, f, st) && FreshWithdrawalJob(st, w, 0) && Retries(f)
    ensures Reachable(p, f, st') && Paid(st', st.workers[w].transferId) == Paid(st, st.workers[w].transferId) + 3
    ensures RowsPersist(st.store, st'.store)
  {
    var once := PaidAndRetried(p, f, st, w, 0);
    var twice := PaidAndRetried(p, f, once, w, 1);
    ReachNext(p, f, twice, Work(w, Unlucky(f)));
    st' := Take(p, twice, Work(w, Unlucky(f)));
  }

  /** A process that dies after the payout and before its write has the whole attempt made again. */
  lemma PaidAndCrashed(p: Policy, f: Faults, st: State, w: WorkerId, made: nat) returns (st': State)
    requires Reachable(p, f, st) && FreshWithdrawalJob(st, w, made) && !st.workers[w].stalled && f.workersCrash
    ensures Reachable(p, f, st') && FreshWithdrawalJob(st', w, made) && st'.store == st.store
    ensures st'.workers[w].transferId == st.workers[w].transferId
    ensures Paid(st', st.workers[w].transferId) == Paid(st, st.workers[w].transferId) + 1
  {
    ReachNext(p, f, st, Work(w, SMOOTH));
    var paid := Take(p, st, Work(w, SMOOTH));
    ReachNext(p, f, paid, Crash(w));
    st' := Take(p, paid, Crash(w));
  }

  const CASH_OUT := WithdrawalRequest(1, 0, 0, 60, 10, "NGN")

  lemma CashOutCommits(s: Store)
    requires s == Scene(Completed, 1, Job(0, Notifying), Ready).store
    ensures IsEnvironment(s, Committed(CASH_OUT)) && ApplyEvent(s, Committed(CASH_OUT)).Success?
    ensures ApplyEvent(s, Committed(CASH_OUT)).value.transfers == s.transfers[1 := WithdrawalRow(CASH_OUT)]
  {
    var inserted := InsertTransfer(s, 1, WithdrawalRow(CASH_OUT));
    assert PostingError(inserted.wallets, DebitPosting(CASH_OUT)).None?;
  }

  /** Wherever deposits can complete at all, some run has a withdrawal, debited, its job about to start. */
  lemma WithdrawalQueued(p: Policy, f: Faults) returns (st: State)
    requires p.admitsProcessing
    ensures Reachable(p, f, st) && FreshWithdrawalJob(st, 2, 0) && !st.workers[2].stalled
    ensures st.workers[2].transferId == 1 && Paid(st, 1) == 0 && 3 !in st.workers
    ensures 1 in st.store.transfers && st.store.transfers[1] == WithdrawalRow(CASH_OUT)
  {
    FirstCredit(p, f);
    var s0 := Scene(Completed, 1, Job(0, Notifying), Ready);
    CashOutCommits(s0.store);
    ReachNext(p, f, s0, Environment(Committed(CASH_OUT)));
    var s1 := Take(p, s0, Environment(Committed(CASH_OUT)));
    ReachNext(p, f, s1, Enqueue(2, 1));
    st := Take(p, s1, Enqueue(2, 1));
  }

  /** Some run then pays that withdrawal out as often as the bound allows, for its one debit. */
  lemma BoundIsReached(p: Policy, f: Faults) returns (st: State)
    requires p.admitsProcessing
    ensures Reachable(p, f, st) && 1 in st.store.transfers && st.store.transfers[1].kind == Withdrawal
    ensures Paid(st, 1) == PayoutBound(f) && Legs(st.store.ledger, 1) == [Leg(0, DebitEntry, WithdrawalEntry, 70)]
  {
    st := WithdrawalQueued(p, f);
    if f.workersCrash {
      st := PaidAndCrashed(p, f, st, 2, 0);
    }
    if Retries(f) {
      st := ThreePayoutsHappen(p, f, st, 2);
    } else {
      ReachNext(p, f, st, Work(2, SMOOTH));
      st := Take(p, st, Work(2, SMOOTH));
    }
    var actions :| AllPermitted(f, actions) && Run(p, actions) == st;
    WithdrawalDebitedOnce(p, actions, 1);
  }

  // ----- exactly when one debit means one payout -----

  /** No run pays any withdrawal out more than `times` times. */
  ghost predicate PaysAtMost(p: Policy, f: Faults, times: nat) {
    forall actions, id :: AllPermitted(f, actions) ==> Paid(Run(p, actions), id) <= times
  }

  /** The bound is exact: a number bounds the payouts of every run exactly when it is at least that, or when
      there is nothing to withdraw. */
  lemma PaysAtMostIff(p: Policy, f: Faults, times: nat)
    ensures PaysAtMost(p, f, times) <==> (p.admitsProcessing ==> PayoutBound(f) <= times)
  {
    if !p.admitsProcessing {
      forall actions, id ensures Paid(Run(p, actions), id) == 0 { NothingCreditedNothingPaid(p, actions); }
    } else if PayoutBound(f) <= times {
      forall actions, id | AllPermitted(f, actions) ensures Paid(Run(p, actions), id) <= times {
        PayoutsWithinBound(p, f, actions);
      }
    } else {
      var st := BoundIsReached(p, f);
      var actions :| AllPermitted(f, actions) && Run(p, actions) == st;
      assert Paid(Run(p, actions), 1) > times;
    }
  }

  /** One debit means at most one payout, in every run, exactly when no worker's write and no notification can
      fail, no worker dies, and the provider never pays what it called pending. */
  lemma PaysOnceIff(p: Policy, f: Faults)
    ensures PaysAtMost(p, f, 1) <==>
      (p.admitsProcessing ==> !f.writesFail && !f.queueRefuses && !f.pendingPays && !f.workersCrash)
  {
    PaysAtMostIff(p, f, 1);
  }
}
