/** What one attempt left alone does to the rows, and why a payment is COMPLETED or FAILED: every final status
    has its cause in the run. */
module SettlementCauses {
  import opened Wrappers
  import opened Ledger
  import opened LedgerInvariants
  import opened LedgerOutcomes
  import opened Settlement
  import opened SettlementTheorems
  import opened SettlementOutcomes

  // ----- one webhook or attempt, uninterrupted, under any policy -----

  function WithStatus(s: Store, id: TransferId, status: TransferStatus): Store
    requires id in s.transfers
  {
    s.(transfers := s.transfers[id := s.transfers[id].(status := status)])
  }

  /** completeDeposit, where its guard lets PROCESSING through. */
  lemma CompletionDecides(p: Policy, s: Store, w: Worker, input: Input, n: nat)
    requires w.phase == Checking && n >= 3 && w.transferId in s.transfers
    ensures var after := Uninterrupted(p, s, w, input, n).0; var row := s.transfers[w.transferId];
      if (row.status == Pending || (p.admitsProcessing && row.status == Processing)) && input.stored
         && row.destination.Some?
         && CanCredit(s, DepositCredit(w.transferId, row.destination.value, row.amount, row.fee))
      then after == Credited(s, DepositCredit(w.transferId, row.destination.value, row.amount, row.fee))
      else after == s
  {
    StepByStep(p, s, w, input, n);
    var checked := w.(phase := WorkerStep(p, s, w, input).phase);
    if checked.phase == Crediting {
      StepByStep(p, s, checked, input, n - 1);
      CreditingSucceedsIff(s, CreditRequest(s, w.transferId));
      var credited := WorkerStep(p, s, checked, input);
      if credited.phase == Notifying {
        StepByStep(p, credited.store, checked.(phase := Notifying), input, n - 2);
      }
    }
  }

  lemma StepByStep(p: Policy, s: Store, w: Worker, input: Input, n: nat)
    requires n > 0 && w.phase != Raised && w.phase != Finished
    ensures var effect := WorkerStep(p, s, w, input);
      Uninterrupted(p, s, w, input, n) == Uninterrupted(p, effect.store, w.(phase := effect.phase), input, n - 1)
  {
  }

  /** What a webhook does to the row it reports on. */
  lemma WebhookDecides(p: Policy, s: Store, w: Worker, input: Input)
    requires w.task.WebhookJob? && w.phase == Ready && w.transferId in s.transfers
    ensures var after := Uninterrupted(p, s, w, input, 4).0; var row := s.transfers[w.transferId];
      if w.task.report == ReportedSuccess && row.status == Processing && row.kind != Deposit && input.stored
        then after == WithStatus(s, w.transferId, Completed)
      else if w.task.report == ReportedSuccess && row.status == Processing && row.kind == Deposit && input.stored
         && p.admitsProcessing && row.destination.Some?
         && CanCredit(s, DepositCredit(w.transferId, row.destination.value, row.amount, row.fee))
        then after == Credited(s, DepositCredit(w.transferId, row.destination.value, row.amount, row.fee))
      else if w.task.report == ReportedFailure && row.status != Completed && row.status != Failed && input.stored
        then after == WithStatus(s, w.transferId, Failed)
      else after == s
  {
    StepByStep(p, s, w, input, 4);
    var decided := w.(phase := WorkerStep(p, s, w, input).phase);
    if decided.phase == Checking {
      CompletionDecides(p, s, decided, input, 3);
    } else if decided.phase.Updating? {
      StepByStep(p, s, decided, input, 3);
    }
  }

  /** What the provider's answer does to a deposit that is PROCESSING. */
  lemma AnswerDecides(p: Policy, s: Store, w: Worker, input: Input)
    requires w.task == DepositJob && w.phase == Charging && w.transferId in s.transfers
    requires s.transfers[w.transferId].status == Processing
    ensures var after := Uninterrupted(p, s, w, input, 4).0; var row := s.transfers[w.transferId];
      if input.outcome == ChargeSucceeded && p.admitsProcessing && input.stored && row.destination.Some?
         && CanCredit(s, DepositCredit(w.transferId, row.destination.value, row.amount, row.fee))
        then after == Credited(s, DepositCredit(w.transferId, row.destination.value, row.amount, row.fee))
      else if input.outcome == ChargeFailed && input.stored then after == WithStatus(s, w.transferId, Failed)
      else after == s
  {
    StepByStep(p, s, w, input, 4);
    if input.outcome == ChargeSucceeded {
      CompletionDecides(p, s, w.(phase := Checking), input, 3);
    } else {
      StepByStep(p, s, w.(phase := WorkerStep(p, s, w, input).phase), input, 3);
      assert WithStatus(s, w.transferId, Processing) == s;
    }
  }

  /** A deposit's attempt on a row that is not final first makes it PROCESSING, then waits for the answer. */
  lemma AttemptMarksFirst(p: Policy, s: Store, w: Worker, input: Input)
    requires w.task == DepositJob && w.phase == Ready && w.transferId in s.transfers
    requires s.transfers[w.transferId].status != Completed || !p.completedIsFinal
    ensures Uninterrupted(p, s, w, input, 5) ==
      if input.marked
      then Uninterrupted(p, WithStatus(s, w.transferId, Processing), w.(phase := Charging), input, 4)
      else (s, Raised)
  {
    StepByStep(p, s, w, input, 5);
  }

  // ----- causes -----

  /** The step in which the provider is asked. */
  predicate Charges(w: Worker) {
    (w.task == WithdrawalJob && w.phase == Ready) || (w.task == DepositJob && w.phase == Charging)
  }

  /** Action i is the provider's answer to a job of this kind on the transfer. */
  ghost predicate Answered(p: Policy, actions: seq<Action>, i: nat, id: TransferId, task: Task, outcome: Outcome) {
    && i < |actions| && actions[i].Work?
    && var workers := Run(p, actions[..i]).workers;
       && actions[i].worker in workers
       && var w := workers[actions[i].worker];
          Charges(w) && w.task == task && w.transferId == id && actions[i].input.outcome == outcome
  }

  /** Action i delivers a webhook with this report on the transfer. */
  ghost predicate Reported(p: Policy, actions: seq<Action>, i: nat, id: TransferId, report: Report) {
    && i < |actions| && actions[i].Deliver? && Enabled(Run(p, actions[..i]), actions[i])
    && actions[i].transferId == id && actions[i].report == report
  }

  /** At action i a job's third attempt has thrown. */
  ghost predicate GaveUp(p: Policy, actions: seq<Action>, i: nat, id: TransferId) {
    && i < |actions| && actions[i].Work?
    && var workers := Run(p, actions[..i]).workers;
       && actions[i].worker in workers
       && var w := workers[actions[i].worker];
          !w.task.WebhookJob? && w.phase == Raised && w.attemptsMade >= 2 && w.transferId == id
  }

  ghost predicate SucceedsAt(p: Policy, actions: seq<Action>, i: nat, id: TransferId) {
    || Answered(p, actions, i, id, WithdrawalJob, ChargeSucceeded)
    || Answered(p, actions, i, id, DepositJob, ChargeSucceeded)
    || Reported(p, actions, i, id, ReportedSuccess)
  }

  ghost predicate FailsAt(p: Policy, actions: seq<Action>, i: nat, id: TransferId) {
    || Answered(p, actions, i, id, WithdrawalJob, ChargeFailed)
    || Answered(p, actions, i, id, WithdrawalJob, ChargePending)
    || Answered(p, actions, i, id, DepositJob, ChargeFailed)
    || GaveUp(p, actions, i, id)
    || Reported(p, actions, i, id, ReportedFailure)
  }

  ghost predicate Succeeds(p: Policy, actions: seq<Action>, id: TransferId) {
    exists i: nat :: SucceedsAt(p, actions, i, id)
  }

  ghost predicate Fails(p: Policy, actions: seq<Action>, id: TransferId) {
    exists i: nat :: FailsAt(p, actions, i, id)
  }

  lemma CausesStay(p: Policy, before: seq<Action>, a: Action, id: TransferId)
    ensures Succeeds(p, before, id) ==> Succeeds(p, before + [a], id)
    ensures Fails(p, before, id) ==> Fails(p, before + [a], id)
  {
    forall i: nat | i < |before| ensures (before + [a])[..i] == before[..i] {}
    if Succeeds(p, before, id) {
      var i: nat :| SucceedsAt(p, before, i, id);
      assert SucceedsAt(p, before + [a], i, id);
    }
    if Fails(p, before, id) {
      var i: nat :| FailsAt(p, before, i, id);
      assert FailsAt(p, before + [a], i, id);
    }
  }

  // ----- every final status has a cause -----

  /** What a worker is about to do has its cause. */
  predicate Justified(w: Worker, succeeds: bool, fails: bool) {
    && (w.task == WebhookJob(ReportedSuccess) ==> succeeds)
    && (w.task == WebhookJob(ReportedFailure) ==> fails)
    && (w.phase == Checking || w.phase == Crediting || w.phase == Updating(Completed) ==> succeeds)
    && (w.phase == Updating(Failed) ==> fails)
  }

  predicate Explained(s: Store, id: TransferId, succeeds: bool, fails: bool) {
    id in s.transfers && s.transfers[id].kind != InternalTransfer ==>
      && (s.transfers[id].status == Completed ==> succeeds)
      && (s.transfers[id].status == Failed ==> fails)
  }

  /** What the step itself adds to the causes. */
  predicate StepCauses(w: Worker, input: Input, succeeds: bool, fails: bool) {
    && (Charges(w) && input.outcome == ChargeSucceeded ==> succeeds)
    && (Charges(w) && input.outcome == ChargeFailed ==> fails)
    && (Charges(w) && input.outcome == ChargePending && w.task == WithdrawalJob ==> fails)
    && (w.phase == Raised && !w.task.WebhookJob? && w.attemptsMade >= 2 ==> fails)
  }

  lemma StepIsJustified(p: Policy, s: Store, w: Worker, input: Input, made: nat, succeeds: bool, fails: bool)
    requires TaskMatches(s, w) && Justified(w, succeeds, fails) && StepCauses(w, input, succeeds, fails)
    ensures Justified(w.(phase := WorkerStep(p, s, w, input).phase, attemptsMade := made), succeeds, fails)
  {
  }

  lemma StepIsExplained(p: Policy, s: Store, w: Worker, input: Input, succeeds: bool, fails: bool)
    requires TaskMatches(s, w) && Justified(w, succeeds, fails) && StepCauses(w, input, succeeds, fails)
    requires Explained(s, w.transferId, succeeds, fails)
    ensures Explained(WorkerStep(p, s, w, input).store, w.transferId, succeeds, fails)
  {
    if w.phase == Crediting && Execute(s, CreditRequest(s, w.transferId)).Success? {
      ExecuteTables(s, CreditRequest(s, w.transferId));
    }
  }

  ghost predicate Caused(p: Policy, actions: seq<Action>, st: State) {
    && (forall w :: w in st.workers ==>
          var id := st.workers[w].transferId;
          Justified(st.workers[w], Succeeds(p, actions, id), Fails(p, actions, id)))
    && (forall id :: Explained(st.store, id, Succeeds(p, actions, id), Fails(p, actions, id)))
  }

  lemma CausedStays(p: Policy, before: seq<Action>, a: Action, st: State)
    requires Caused(p, before, st)
    ensures Caused(p, before + [a], st)
  {
    forall w | w in st.workers
      ensures var id := st.workers[w].transferId;
        Justified(st.workers[w], Succeeds(p, before + [a], id), Fails(p, before + [a], id))
    {
      CausesStay(p, before, a, st.workers[w].transferId);
    }
    forall id ensures Explained(st.store, id, Succeeds(p, before + [a], id), Fails(p, before + [a], id)) {
      CausesStay(p, before, a, id);
    }
  }

  /** The step taken is itself the cause it adds. */
  lemma StepAddsCauses(p: Policy, before: seq<Action>, w: WorkerId, input: Input)
    requires w in Run(p, before).workers
    ensures var worker := Run(p, before).workers[w]; var actions := before + [Work(w, input)];
      StepCauses(worker, input, Succeeds(p, actions, worker.transferId), Fails(p, actions, worker.transferId))
  {
    var worker := Run(p, before).workers[w];
    var actions := before + [Work(w, input)];
    var i, id := |before|, worker.transferId;
    assert actions[..i] == before;
    if Charges(worker) {
      assert Answered(p, actions, i, id, worker.task, input.outcome);
      assert input.outcome == ChargeSucceeded ==> SucceedsAt(p, actions, i, id);
      assert input.outcome == ChargeFailed ==> FailsAt(p, actions, i, id);
      assert input.outcome == ChargePending && worker.task == WithdrawalJob ==> FailsAt(p, actions, i, id);
    } else if worker.phase == Raised && !worker.task.WebhookJob? && worker.attemptsMade >= 2 {
      assert GaveUp(p, actions, i, id);
      assert FailsAt(p, actions, i, id);
    }
  }

  lemma DeliveryAddsCause(p: Policy, before: seq<Action>, w: WorkerId, id: TransferId, report: Report)
    requires Enabled(Run(p, before), Deliver(w, id, report))
    ensures var actions := before + [Deliver(w, id, report)];
      Justified(Worker(WebhookJob(report), id, 0, false, Ready), Succeeds(p, actions, id), Fails(p, actions, id))
  {
    var actions := before + [Deliver(w, id, report)];
    assert actions[..|before|] == before;
    assert Reported(p, actions, |before|, id, report);
    assert report == ReportedSuccess ==> SucceedsAt(p, actions, |before|, id);
    assert report == ReportedFailure ==> FailsAt(p, actions, |before|, id);
  }

  lemma WorkIsCaused(p: Policy, before: seq<Action>, w: WorkerId, input: Input)
    requires SettlementInv(Run(p, before)) && w in Run(p, before).workers
    requires Caused(p, before + [Work(w, input)], Run(p, before))
    ensures Caused(p, before + [Work(w, input)], Take(p, Run(p, before), Work(w, input)))
  {
    var st, actions := Run(p, before), before + [Work(w, input)];
    var st' := Take(p, st, Work(w, input));
    var worker, own := st.workers[w], st.workers[w].transferId;
    assert TaskMatches(st.store, worker);
    StepAddsCauses(p, before, w, input);
    StepIsJustified(p, st.store, worker, input, st'.workers[w].attemptsMade,
                    Succeeds(p, actions, own), Fails(p, actions, own));
    StepIsExplained(p, st.store, worker, input, Succeeds(p, actions, own), Fails(p, actions, own));
    forall id ensures Explained(st'.store, id, Succeeds(p, actions, id), Fails(p, actions, id)) {
      assert Explained(st.store, id, Succeeds(p, actions, id), Fails(p, actions, id));
      if id != own { StepSparesRow(p, st.store, worker, input, id); }
    }
  }

  lemma StepSparesRow(p: Policy, s: Store, w: Worker, input: Input, id: TransferId)
    requires StoreInv(s) && TaskMatches(s, w) && id != w.transferId
    ensures id in WorkerStep(p, s, w, input).store.transfers <==> id in s.transfers
    ensures id in s.transfers ==> WorkerStep(p, s, w, input).store.transfers[id] == s.transfers[id]
  {
    if w.phase == Crediting && Execute(s, CreditRequest(s, w.transferId)).Success? {
      ExecuteTables(s, CreditRequest(s, w.transferId));
    }
  }

  lemma EnvironmentIsExplained(s: Store, e: Event, id: TransferId, succeeds: bool, fails: bool)
    requires IsEnvironment(s, e) && ApplyEvent(s, e).Success? && Explained(s, id, succeeds, fails)
    ensures Explained(ApplyEvent(s, e).value, id, succeeds, fails)
  {
    EventPersists(s, e);
    if id in s.transfers {
      EnvironmentKeepsStatus(s, e, id);
    } else if e.Committed? {
      ExecuteTables(s, e.request);
    }
  }

  lemma EnvironmentIsCaused(p: Policy, actions: seq<Action>, st: State, e: Event)
    requires Enabled(st, Environment(e)) && Caused(p, actions, st)
    ensures Caused(p, actions, Take(p, st, Environment(e)))
  {
    forall id
      ensures Explained(Take(p, st, Environment(e)).store, id, Succeeds(p, actions, id), Fails(p, actions, id))
    {
      EnvironmentIsExplained(st.store, e, id, Succeeds(p, actions, id), Fails(p, actions, id));
    }
  }

  lemma DeliveryIsCaused(p: Policy, before: seq<Action>, w: WorkerId, id: TransferId, report: Report)
    requires Enabled(Run(p, before), Deliver(w, id, report))
    requires Caused(p, before + [Deliver(w, id, report)], Run(p, before))
    ensures Caused(p, before + [Deliver(w, id, report)], Take(p, Run(p, before), Deliver(w, id, report)))
  {
    DeliveryAddsCause(p, before, w, id, report);
  }

  lemma TakeIsCaused(p: Policy, before: seq<Action>, a: Action)
    requires SettlementInv(Run(p, before)) && Enabled(Run(p, before), a)
    requires Caused(p, before + [a], Run(p, before))
    ensures Caused(p, before + [a], Take(p, Run(p, before), a))
  {
    match a
    case Environment(e) => EnvironmentIsCaused(p, before + [a], Run(p, before), e);
    case Enqueue(_, _) =>
    case Deliver(w, id, report) => DeliveryIsCaused(p, before, w, id, report);
    case Work(w, input) => WorkIsCaused(p, before, w, input);
    case Crash(_) =>
  }

  lemma {:induction false} RunIsCaused(p: Policy, actions: seq<Action>)
    ensures Caused(p, actions, Run(p, actions))
  {
    if actions != [] {
      var before, a := actions[..|actions| - 1], actions[|actions| - 1];
      RunIsCaused(p, before);
      RunKeepsBooks(p, before);
      CausedStays(p, before, a, Run(p, before));
      assert before + [a] == actions;
      if Enabled(Run(p, before), a) { TakeIsCaused(p, before, a); }
    }
  }

  /** In every run a deposit or withdrawal is COMPLETED only after the provider answered one of its attempts with
      success or a webhook reported success on it. */
  lemma CompletedHasACause(p: Policy, actions: seq<Action>, id: TransferId) returns (i: nat)
    requires id in Run(p, actions).store.transfers
    requires Run(p, actions).store.transfers[id].kind != InternalTransfer
    requires Run(p, actions).store.transfers[id].status == Completed
    ensures
      || Answered(p, actions, i, id, WithdrawalJob, ChargeSucceeded)
      || Answered(p, actions, i, id, DepositJob, ChargeSucceeded)
      || Reported(p, actions, i, id, ReportedSuccess)
  {
    RunIsCaused(p, actions);
    assert Explained(Run(p, actions).store, id, Succeeds(p, actions, id), Fails(p, actions, id));
    i :| SucceedsAt(p, actions, i, id);
  }

  /** And it is FAILED only after a refused charge, a disbursement that did not succeed at once, a job whose third
      attempt threw, or a webhook that reported failure. */
  lemma FailedHasACause(p: Policy, actions: seq<Action>, id: TransferId) returns (i: nat)
    requires id in Run(p, actions).store.transfers
    requires Run(p, actions).store.transfers[id].kind != InternalTransfer
    requires Run(p, actions).store.transfers[id].status == Failed
    ensures
      || Answered(p, actions, i, id, WithdrawalJob, ChargeFailed)
      || Answered(p, actions, i, id, WithdrawalJob, ChargePending)
      || Answered(p, actions, i, id, DepositJob, ChargeFailed)
      || GaveUp(p, actions, i, id)
      || Reported(p, actions, i, id, ReportedFailure)
  {
    RunIsCaused(p, actions);
    assert Explained(Run(p, actions).store, id, Succeeds(p, actions, id), Fails(p, actions, id));
    i :| FailsAt(p, actions, i, id);
  }

  // ----- a withdrawal its job completed was paid -----

  lemma PaidStays(p: Policy, st: State, a: Action, id: TransferId)
    requires Enabled(st, a)
    ensures Paid(Take(p, st, a), id) >= Paid(st, id)
  {
  }

  lemma {:induction false} AnsweredIsPaid(p: Policy, actions: seq<Action>, i: nat, id: TransferId)
    requires Answered(p, actions, i, id, WithdrawalJob, ChargeSucceeded)
    ensures Paid(Run(p, actions), id) > 0
  {
    var before, a := actions[..|actions| - 1], actions[|actions| - 1];
    if i < |before| {
      assert before[..i] == actions[..i];
      AnsweredIsPaid(p, before, i, id);
      if Enabled(Run(p, before), a) { PaidStays(p, Run(p, before), a, id); }
    } else {
      assert actions[..i] == before;
    }
  }

  lemma {:induction false} DepositJobsAskForDeposits(p: Policy, actions: seq<Action>, i: nat, id: TransferId,
                                                     outcome: Outcome)
    requires Answered(p, actions, i, id, DepositJob, outcome)
    ensures id in Run(p, actions).store.transfers && Run(p, actions).store.transfers[id].kind == Deposit
  {
    var before, a := actions[..|actions| - 1], actions[|actions| - 1];
    RunKeepsBooks(p, before);
    if i < |before| {
      assert before[..i] == actions[..i];
      DepositJobsAskForDeposits(p, before, i, id, outcome);
    } else {
      assert actions[..i] == before;
      assert TaskMatches(Run(p, before).store, Run(p, before).workers[a.worker]);
    }
    if Enabled(Run(p, before), a) { TakeKeepsRows(p, Run(p, before), a); }
  }

  lemma TakeKeepsRows(p: Policy, st: State, a: Action)
    requires SettlementInv(st) && Enabled(st, a)
    ensures RowsPersist(st.store, Take(p, st, a).store)
  {
    match a
    case Environment(e) => EventPersists(st.store, e);
    case Work(w, input) =>
      assert TaskMatches(st.store, st.workers[w]);
      WorkerStepIsEvent(p, st.store, st.workers[w], input);
      StepChangeKeeps(st.store, Take(p, st, a).store, st.workers[w].transferId);
    case _ =>
  }

  /** In every run a COMPLETED withdrawal was paid out, or a webhook reported success on it. */
  lemma CompletedIsPaidOrReported(p: Policy, actions: seq<Action>, id: TransferId)
    requires id in Run(p, actions).store.transfers && Run(p, actions).store.transfers[id].kind == Withdrawal
    requires Run(p, actions).store.transfers[id].status == Completed
    ensures Paid(Run(p, actions), id) > 0 || exists i: nat :: Reported(p, actions, i, id, ReportedSuccess)
  {
    var i := CompletedHasACause(p, actions, id);
    if Answered(p, actions, i, id, WithdrawalJob, ChargeSucceeded) {
      AnsweredIsPaid(p, actions, i, id);
    } else if Answered(p, actions, i, id, DepositJob, ChargeSucceeded) {
      DepositJobsAskForDeposits(p, actions, i, id, ChargeSucceeded);
    }
  }

  // ----- attempts -----

  ghost predicate WithinAttempts(st: State) {
    forall w :: w in st.workers ==>
      var worker := st.workers[w];
      && worker.attemptsMade <= (if worker.task.WebhookJob? then 5 else 3)
      && (worker.phase != Finished ==> worker.attemptsMade < if worker.task.WebhookJob? then 5 else 3)
  }

  /** In every run a payment job makes at most three attempts and a webhook job at most five. */
  lemma {:induction false} AttemptsAreBounded(p: Policy, actions: seq<Action>)
    ensures WithinAttempts(Run(p, actions))
  {
    if actions != [] {
      AttemptsAreBounded(p, actions[..|actions| - 1]);
    }
  }

  /** An attempt that threw is made again until the attempts are used up. Only then, and only for payment jobs, the
      transfer is marked FAILED. */
  lemma ThrownAttempts(p: Policy, s: Store, w: Worker, input: Input)
    requires w.phase == Raised && w.transferId in s.transfers
    requires s.transfers[w.transferId].status != Completed || !p.completedIsFinal
    ensures var effect := WorkerStep(p, s, w, input);
      if w.attemptsMade + 1 < (if w.task.WebhookJob? then 5 else 3) then effect == Effect(s, Ready, false)
      else if !w.task.WebhookJob? && input.stored
        then effect == Effect(WithStatus(s, w.transferId, Failed), Finished, false)
      else effect == Effect(s, Finished, false)
  {
  }
}
