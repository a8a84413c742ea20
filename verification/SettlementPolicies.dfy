/** Exactly which settlement policies credit each deposit once, and which let a deposit complete at all. */
module SettlementPolicies {
  import opened Wrappers
  import opened Ledger
  import opened LedgerInvariants
  import opened Settlement
  import opened SettlementTheorems

  /** In every run each deposit has one credit of amount - fee if it is COMPLETED and none otherwise. */
  ghost predicate CreditsExactly(p: Policy, f: Faults) {
    forall actions :: AllPermitted(f, actions) ==> AllDepositsExact(Run(p, actions).store)
  }

  ghost predicate SomeDepositCompletes(p: Policy, f: Faults) {
    exists actions, id :: AllPermitted(f, actions) && CompletedDeposit(Run(p, actions).store, id)
  }

  ghost predicate CompletedDeposit(s: Store, id: TransferId) {
    && id in s.transfers && s.transfers[id].kind == Deposit && s.transfers[id].status == Completed
    && s.transfers[id].destination.Some? && Legs(s.ledger, id) == [DepositLeg(s.transfers[id])]
  }

  // ----- one deposit, its job and a webhook about it -----

  function OneWallet(balance: int): map<WalletId, Wallet> {
    map[0 := Wallet(0, NGN, balance, 0, Active)]
  }

  function OneDeposit(status: TransferStatus): map<TransferId, Transfer> {
    map[0 := Transfer(Deposit, status, 0, "NGN", 100, 0, None, Some(0))]
  }

  function Credits(times: nat): seq<LedgerEntry> {
    if times == 0 then [] else Credits(times - 1) + [LedgerEntry(0, CreditEntry, DepositEntry, 100, 100 * times, 0)]
  }

  function Job(made: nat, phase: Phase): Worker {
    Worker(DepositJob, 0, made, false, phase)
  }

  /** A deposit of 100, credited `times` times so far. */
  function Tables(status: TransferStatus, times: nat): Store {
    Store(OneWallet(100 * times), Credits(times), OneDeposit(status))
  }

  function Webhook(phase: Phase): Worker {
    Worker(WebhookJob(ReportedSuccess), 0, 0, false, phase)
  }

  function Scene(status: TransferStatus, times: nat, job: Worker, hook: Phase): State {
    State(Tables(status, times), map[0 := job, 1 := Webhook(hook)], {0}, map[])
  }

  const SMOOTH := Input(ChargeSucceeded, false, true, true, true)
  const PENDING_ANSWER := Input(ChargePending, false, true, true, true)

  lemma Opening(p: Policy, f: Faults)
    ensures Reachable(p, f, Scene(Pending, 0, Job(0, Ready), Ready))
  {
    var s0 := IDLE;
    assert Run(p, []) == s0;
    ReachNext(p, f, s0, Environment(WalletCreated(0, 0, NGN)));
    var s1 := s0.(store := EMPTY_STORE.(wallets := OneWallet(0)));
    assert Take(p, s0, Environment(WalletCreated(0, 0, NGN))) == s1;
    var deposit := DepositInitiated(0, 0, 0, 100, 0, "NGN");
    ReachNext(p, f, s1, Environment(deposit));
    var s2 := s1.(store := Store(OneWallet(0), [], OneDeposit(Pending)));
    assert Take(p, s1, Environment(deposit)) == s2;
    ReachNext(p, f, s2, Enqueue(0, 0));
    var s3 := s2.(workers := map[0 := Job(0, Ready)], enqueued := {0});
    assert Take(p, s2, Enqueue(0, 0)) == s3;
    ReachNext(p, f, s3, Deliver(1, 0, ReportedSuccess));
    assert Take(p, s3, Deliver(1, 0, ReportedSuccess)) == Scene(Pending, 0, Job(0, Ready), Ready);
  }

  // ----- moves of the scene -----

  function Moved(w: Worker, phase: Phase): Worker {
    w.(phase := phase, attemptsMade := if w.phase == Raised then w.attemptsMade + 1 else w.attemptsMade)
  }

  lemma JobMoves(p: Policy, f: Faults, status: TransferStatus, times: nat, job: Worker, hook: Phase,
                 input: Input, status': TransferStatus, times': nat, phase: Phase)
    requires Reachable(p, f, Scene(status, times, job, hook)) && PermitsInput(NO_FAULTS, input)
    requires WorkerStep(p, Tables(status, times), job, input) == Go(Tables(status', times'), phase)
    ensures Reachable(p, f, Scene(status', times', Moved(job, phase), hook))
  {
    var st := Scene(status, times, job, hook);
    ReachNext(p, f, st, Work(0, input));
    assert Take(p, st, Work(0, input)) == Scene(status', times', Moved(job, phase), hook);
  }

  lemma WebhookMoves(p: Policy, f: Faults, status: TransferStatus, times: nat, job: Worker, hook: Phase,
                     status': TransferStatus, times': nat, phase: Phase)
    requires hook != Raised && Reachable(p, f, Scene(status, times, job, hook))
    requires WorkerStep(p, Tables(status, times), Webhook(hook), SMOOTH) == Go(Tables(status', times'), phase)
    ensures Reachable(p, f, Scene(status', times', job, phase))
  {
    var st := Scene(status, times, job, hook);
    ReachNext(p, f, st, Work(1, SMOOTH));
    assert Take(p, st, Work(1, SMOOTH)) == Scene(status', times', job, phase);
  }

  /** An attempt starts by writing PROCESSING over whatever is there, unless COMPLETED is final. */
  lemma JobStarts(p: Policy, f: Faults, status: TransferStatus, times: nat, made: nat, hook: Phase)
    requires Reachable(p, f, Scene(status, times, Job(made, Ready), hook))
      && !(p.completedIsFinal && status == Completed)
    ensures Reachable(p, f, Scene(Processing, times, Job(made, Charging), hook))
  {
    JobMoves(p, f, status, times, Job(made, Ready), hook, SMOOTH, Processing, times, Charging);
  }

  /** The provider succeeds and, if the guard admits PROCESSING, the job gets past it. */
  lemma JobPassesGuard(p: Policy, f: Faults, times: nat, made: nat, hook: Phase)
    requires p.admitsProcessing && Reachable(p, f, Scene(Processing, times, Job(made, Charging), hook))
    ensures Reachable(p, f, Scene(Processing, times, Job(made, Crediting), hook))
  {
    JobMoves(p, f, Processing, times, Job(made, Charging), hook, SMOOTH, Processing, times, Checking);
    JobMoves(p, f, Processing, times, Job(made, Checking), hook, SMOOTH, Processing, times, Crediting);
  }

  lemma CreditEffect(times: nat, status: TransferStatus)
    ensures Execute(Tables(status, times), CreditRequest(Tables(status, times), 0))
      == Success(Tables(Completed, times + 1))
  {
    var s := Tables(status, times);
    var credit := Posting(0, CreditEntry, 0, 100, DepositEntry, 0);
    assert CreditPosting(CreditRequest(s, 0)) == credit;
    var posted := Post(s, credit).value;
    assert posted.wallets == OneWallet(100 * (times + 1));
    assert posted.ledger == Credits(times + 1);
    assert SetStatus(posted, 0, Completed).transfers == OneDeposit(Completed);
  }

  lemma CreditStep(p: Policy, status: TransferStatus, times: nat, w: Worker)
    requires w.phase == Crediting && w.transferId == 0 && (p.checkUnderLock ==> Admits(p, status))
    ensures WorkerStep(p, Tables(status, times), w, SMOOTH) == Go(Tables(Completed, times + 1), Notifying)
  {
    CreditEffect(times, status);
  }

  lemma JobCredits(p: Policy, f: Faults, times: nat, made: nat, hook: Phase)
    requires p.admitsProcessing && Reachable(p, f, Scene(Processing, times, Job(made, Crediting), hook))
    ensures Reachable(p, f, Scene(Completed, times + 1, Job(made, Notifying), hook))
  {
    CreditStep(p, Processing, times, Job(made, Crediting));
    JobMoves(p, f, Processing, times, Job(made, Crediting), hook, SMOOTH, Completed, times + 1, Notifying);
  }

  /** The provider says pending, and the job writes PROCESSING over whatever is there by then. */
  lemma JobReopens(p: Policy, f: Faults, times: nat, made: nat, hook: Phase)
    requires !p.completedIsFinal && Reachable(p, f, Scene(Completed, times, Job(made, Charging), hook))
    ensures Reachable(p, f, Scene(Processing, times, Job(made, Finished), hook))
  {
    JobMoves(p, f, Completed, times, Job(made, Charging), hook, PENDING_ANSWER, Completed, times, Updating(Processing));
    JobMoves(p, f, Completed, times, Job(made, Updating(Processing)), hook, SMOOTH, Processing, times, Finished);
  }

  lemma WebhookPassesGuard(p: Policy, f: Faults, times: nat, job: Worker)
    requires p.admitsProcessing && Reachable(p, f, Scene(Processing, times, job, Ready))
    ensures Reachable(p, f, Scene(Processing, times, job, Crediting))
  {
    WebhookMoves(p, f, Processing, times, job, Ready, Processing, times, Checking);
    WebhookMoves(p, f, Processing, times, job, Checking, Processing, times, Crediting);
  }

  /** The webhook credits; without a check under the lock it does so whatever happened since its guard. */
  lemma WebhookCredits(p: Policy, f: Faults, status: TransferStatus, times: nat, job: Worker)
    requires p.checkUnderLock ==> Admits(p, status)
    requires Reachable(p, f, Scene(status, times, job, Crediting))
    ensures Reachable(p, f, Scene(Completed, times + 1, job, Notifying))
  {
    CreditStep(p, status, times, Webhook(Crediting));
    WebhookMoves(p, f, status, times, job, Crediting, Completed, times + 1, Notifying);
  }

  lemma {:induction false} LegsOfCredits(times: nat)
    ensures |Legs(Credits(times), 0)| == times
    ensures forall i :: 0 <= i < times ==> Legs(Credits(times), 0)[i] == Leg(0, CreditEntry, DepositEntry, 100)
  {
    if times > 0 {
      LegsOfCredits(times - 1);
      assert Credits(times)[..|Credits(times)| - 1] == Credits(times - 1);
    }
  }

  lemma NotExact(p: Policy, f: Faults, status: TransferStatus, times: nat, job: Worker, hook: Phase)
    requires Reachable(p, f, Scene(status, times, job, hook)) && times != (if status == Completed then 1 else 0)
    ensures !CreditsExactly(p, f)
  {
    var s := Scene(status, times, job, hook).store;
    LegsOfCredits(times);
    assert !CreditedIffCompleted(s, 0);
    assert !AllDepositsExact(s);
  }

  // ----- the theorems -----

  /** Reaching the first credit is possible whenever the guard admits PROCESSING. */
  lemma FirstCredit(p: Policy, f: Faults)
    requires p.admitsProcessing
    ensures Reachable(p, f, Scene(Processing, 0, Job(0, Crediting), Ready))
    ensures Reachable(p, f, Scene(Completed, 1, Job(0, Notifying), Ready))
  {
    Opening(p, f);
    JobStarts(p, f, Pending, 0, 0, Ready);
    JobPassesGuard(p, f, 0, 0, Ready);
    JobCredits(p, f, 0, 0, Ready);
  }

  /** Exactly-once: deposits are credited once if and only if completed, in every run, exactly under the
      policies that either never admit PROCESSING or check under the lock and never reopen COMPLETED.
      Faults make no difference: the other policies fail without any. */
  lemma ExactlyOnceIff(p: Policy, f: Faults)
    ensures CreditsExactly(p, f) <==> (p.admitsProcessing ==> p.checkUnderLock && p.completedIsFinal)
  {
    if !p.admitsProcessing {
      forall actions ensures AllDepositsExact(Run(p, actions).store) { UnadmittedIsExact(p, actions); }
    } else if p.checkUnderLock && p.completedIsFinal {
      forall actions ensures AllDepositsExact(Run(p, actions).store) { LockedRunIsExact(p, actions); }
    } else if !p.checkUnderLock {
      FirstCredit(p, f);
      WebhookPassesGuard(p, f, 0, Job(0, Crediting));
      JobCredits(p, f, 0, 0, Crediting);
      WebhookCredits(p, f, Completed, 1, Job(0, Notifying));
      NotExact(p, f, Completed, 2, Job(0, Notifying), Notifying);
    } else {
      Opening(p, f);
      JobStarts(p, f, Pending, 0, 0, Ready);
      WebhookPassesGuard(p, f, 0, Job(0, Charging));
      WebhookCredits(p, f, Processing, 0, Job(0, Charging));
      JobReopens(p, f, 1, 0, Notifying);
      NotExact(p, f, Processing, 1, Job(0, Finished), Notifying);
    }
  }

  lemma UnadmittedIsExact(p: Policy, actions: seq<Action>)
    requires !p.admitsProcessing
    ensures AllDepositsExact(Run(p, actions).store)
  {
    UnadmittedRun(p, actions);
    var s := Run(p, actions).store;
    forall id | id in s.transfers && s.transfers[id].kind == Deposit ensures CreditedIffCompleted(s, id) {
      assert s.transfers[id].status != Completed;
    }
  }

  /** A deposit can complete at all exactly when the guard admits PROCESSING - as written it does not. */
  lemma DepositsCompleteIff(p: Policy, f: Faults)
    ensures SomeDepositCompletes(p, f) <==> p.admitsProcessing
  {
    if p.admitsProcessing {
      FirstCredit(p, f);
      LegsOfCredits(1);
      var st := Scene(Completed, 1, Job(0, Notifying), Ready);
      var actions :| AllPermitted(f, actions) && Run(p, actions) == st;
      assert CompletedDeposit(Run(p, actions).store, 0);
    } else {
      forall actions, id ensures !CompletedDeposit(Run(p, actions).store, id) {
        UnadmittedRun(p, actions);
      }
    }
  }
}
