/** What a withdrawal's final status says about its payout: exactly when FAILED means unpaid. */
module SettlementOutcomes {
  import opened Wrappers
  import opened Ledger
  import opened LedgerInvariants
  import opened Settlement
  import opened SettlementTheorems
  import opened SettlementPolicies
  import opened SettlementPayouts

  /** The job is over and the row says FAILED, but the provider has paid. */
  predicate FailedThoughPaid(st: State, w: WorkerId) {
    && w in st.workers && st.workers[w].task == WithdrawalJob && st.workers[w].phase == Finished
    && StatusOf(st.store, st.workers[w].transferId) == Failed && Paid(st, st.workers[w].transferId) > 0
  }

  ghost predicate FailedMeansUnpaid(p: Policy, f: Faults) {
    forall actions, w :: AllPermitted(f, actions) ==> !FailedThoughPaid(Run(p, actions), w)
  }

  /** The policy and the faults under which a payout always ends up in the row. */
  predicate PayoutsAreRecorded(p: Policy, f: Faults) {
    p.completedIsFinal && !f.writesFail && !f.pendingPays && !f.workersCrash
  }

  // ----- then it is recorded -----

  /** A paid withdrawal is COMPLETED, or its job is about to write so. */
  predicate Recorded(st: State, w: WorkerId)
    requires w in st.workers
  {
    st.workers[w].task == WithdrawalJob && Paid(st, st.workers[w].transferId) > 0 ==>
      || st.workers[w].phase == Updating(Completed)
      || StatusOf(st.store, st.workers[w].transferId) == Completed
  }

  lemma EnvironmentKeepsStatus(s: Store, e: Event, id: TransferId)
    requires IsEnvironment(s, e) && ApplyEvent(s, e).Success? && id in s.transfers
    ensures StatusOf(ApplyEvent(s, e).value, id) == StatusOf(s, id)
  {
    if e.Committed? {
      ExecuteTables(s, e.request);
    }
  }

  lemma StepKeepsCompleted(p: Policy, s: Store, w: Worker, input: Input, id: TransferId)
    requires p.completedIsFinal && StoreInv(s) && TaskMatches(s, w) && StatusOf(s, id) == Completed
    ensures StatusOf(WorkerStep(p, s, w, input).store, id) == Completed
  {
    if id != w.transferId {
      StepSparesOthers(p, s, w, input, id);
    } else if w.phase == Crediting {
      if Execute(s, CreditRequest(s, id)).Success? {
        CreditAddsOneLeg(s, id);
      }
    } else if WorkerStep(p, s, w, input).store != s {
      var status := StepWrites(p, s, w, input);
    }
  }

  lemma OwnStepRecords(p: Policy, f: Faults, st: State, w: WorkerId, input: Input)
    requires PayoutsAreRecorded(p, f) && PermitsInput(f, input) && SettlementInv(st)
    requires w in st.workers && Recorded(st, w)
    ensures Recorded(Take(p, st, Work(w, input)), w)
  {
    var worker := st.workers[w];
    assert TaskMatches(st.store, worker);
    if StatusOf(st.store, worker.transferId) == Completed {
      StepKeepsCompleted(p, st.store, worker, input, worker.transferId);
    }
  }

  lemma OthersStayRecorded(p: Policy, f: Faults, st: State, w: WorkerId, input: Input, u: WorkerId)
    requires PayoutsAreRecorded(p, f) && SettlementInv(st) && PayoutInv(f, st)
    requires w in st.workers && u in st.workers && u != w && Recorded(st, u)
    ensures Recorded(Take(p, st, Work(w, input)), u)
  {
    assert TaskMatches(st.store, st.workers[w]);
    if WorkerStep(p, st.store, st.workers[w], input).paid {
      OnlyJobsPay(p, st.store, st.workers[w], input);
    }
    if StatusOf(st.store, st.workers[u].transferId) == Completed {
      StepKeepsCompleted(p, st.store, st.workers[w], input, st.workers[u].transferId);
    }
  }

  lemma TakeRecords(p: Policy, f: Faults, st: State, a: Action)
    requires PayoutsAreRecorded(p, f) && SettlementInv(st) && PayoutInv(f, st) && Enabled(st, a) && Permits(f, a)
    requires forall w :: w in st.workers ==> Recorded(st, w)
    requires forall id :: Paid(st, id) > 0 ==> id in st.enqueued
    ensures forall w :: w in Take(p, st, a).workers ==> Recorded(Take(p, st, a), w)
  {
    var st' := Take(p, st, a);
    forall w | w in st'.workers ensures Recorded(st', w) {
      match a {
        case Environment(e) =>
          assert TaskMatches(st.store, st.workers[w]) && Recorded(st, w);
          if st.workers[w].task == WithdrawalJob { EnvironmentKeepsStatus(st.store, e, st.workers[w].transferId); }
        case Work(u, input) =>
          if u == w { OwnStepRecords(p, f, st, w, input); } else { OthersStayRecorded(p, f, st, u, input, w); }
        case Enqueue(_, _) =>
          if w in st.workers { assert Recorded(st, w); }
        case Deliver(_, _, _) =>
          if w in st.workers { assert Recorded(st, w); }
        case Crash(_) =>
      }
    }
  }

  lemma {:induction false} RunRecords(p: Policy, f: Faults, actions: seq<Action>)
    requires PayoutsAreRecorded(p, f) && AllPermitted(f, actions)
    ensures forall w :: w in Run(p, actions).workers ==> Recorded(Run(p, actions), w)
  {
    if actions != [] {
      var before := actions[..|actions| - 1];
      var a := actions[|actions| - 1];
      RunRecords(p, f, before);
      RunKeepsBooks(p, before);
      PayoutsWithinBound(p, f, before);
      assert Permits(f, a);
      if Enabled(Run(p, before), a) {
        TakeRecords(p, f, Run(p, before), a);
      }
    }
  }

  // ----- and otherwise it is lost -----

  const FAILURE := Input(ChargeFailed, false, true, true, true)

  /** An attempt that may pay and counts as failed without ever writing COMPLETED. */
  predicate LosesTheAttempt(input: Input) {
    if input.outcome == ChargeSucceeded then !input.stored else input.stored
  }

  predicate Pays(input: Input) {
    input.outcome == ChargeSucceeded || (input.outcome == ChargePending && input.paysLater)
  }

  predicate Unfinished(st: State, w: WorkerId, made: nat) {
    && FreshWithdrawalJob(st, w, made) && made <= 2
    && st.workers[w].transferId in st.store.transfers && StatusOf(st.store, st.workers[w].transferId) != Completed
  }

  lemma AttemptIsLost(p: Policy, f: Faults, st: State, w: WorkerId, made: nat, input: Input) returns (st': State)
    requires Reachable(p, f, st) && Unfinished(st, w, made) && LosesTheAttempt(input) && PermitsInput(f, input)
    ensures Reachable(p, f, st') && w in st'.workers && st'.workers[w] == st.workers[w].(phase := Raised)
    ensures var id := st.workers[w].transferId;
      && id in st'.store.transfers && StatusOf(st'.store, id) != Completed
      && Paid(st', id) == Paid(st, id) + if Pays(input) then 1 else 0
  {
    ReachNext(p, f, st, Work(w, input));
    var answered := Take(p, st, Work(w, input));
    ReachNext(p, f, answered, Work(w, input));
    st' := Take(p, answered, Work(w, input));
  }

  /** Attempts lost one after the other end in FAILED, whatever they paid. */
  lemma {:induction false} JobGivesUp(p: Policy, f: Faults, st: State, w: WorkerId, made: nat, input: Input)
      returns (st': State)
    requires Reachable(p, f, st) && Unfinished(st, w, made) && LosesTheAttempt(input) && PermitsInput(f, input)
    requires Pays(input) || Paid(st, st.workers[w].transferId) > 0
    ensures Reachable(p, f, st') && FailedThoughPaid(st', w)
    decreases 2 - made
  {
    var raised := AttemptIsLost(p, f, st, w, made, input);
    ReachNext(p, f, raised, Work(w, SMOOTH));
    st' := Take(p, raised, Work(w, SMOOTH));
    if made < 2 {
      st' := JobGivesUp(p, f, st', w, made + 1, input);
    }
  }

  /** A webhook reads PROCESSING, the job pays and writes COMPLETED, and the webhook writes FAILED over it. */
  lemma LateWebhookOverwrites(p: Policy, f: Faults) returns (st: State)
    requires p.admitsProcessing && !p.completedIsFinal
    ensures Reachable(p, f, st) && FailedThoughPaid(st, 2)
  {
    st := WithdrawalQueued(p, f);
    ReachNext(p, f, st, Deliver(3, 1, ReportedFailure));
    st := Take(p, st, Deliver(3, 1, ReportedFailure));
    ReachNext(p, f, st, Work(3, SMOOTH));
    st := Take(p, st, Work(3, SMOOTH));
    assert st.workers[3].phase == Updating(Failed);
    st := JobPays(p, f, st);
    ReachNext(p, f, st, Work(3, SMOOTH));
    st := Take(p, st, Work(3, SMOOTH));
  }

  lemma JobPays(p: Policy, f: Faults, st: State) returns (st': State)
    requires Reachable(p, f, st) && FreshWithdrawalJob(st, 2, 0) && st.workers[2].transferId == 1
    requires 1 in st.store.transfers && 3 in st.workers
    ensures Reachable(p, f, st') && 3 in st'.workers && st'.workers[3] == st.workers[3] && 1 in st'.store.transfers
    ensures 2 in st'.workers && st'.workers[2] == st.workers[2].(phase := Finished) && Paid(st', 1) > 0
  {
    ReachNext(p, f, st, Work(2, SMOOTH));
    var paid := Take(p, st, Work(2, SMOOTH));
    ReachNext(p, f, paid, Work(2, SMOOTH));
    var written := Take(p, paid, Work(2, SMOOTH));
    ReachNext(p, f, written, Work(2, SMOOTH));
    st' := Take(p, written, Work(2, SMOOTH));
  }

  lemma PayoutIsLost(p: Policy, f: Faults) returns (st: State)
    requires p.admitsProcessing && (f.writesFail || f.pendingPays || f.workersCrash)
    ensures Reachable(p, f, st) && FailedThoughPaid(st, 2)
  {
    st := WithdrawalQueued(p, f);
    if f.writesFail {
      st := JobGivesUp(p, f, st, 2, 0, Input(ChargeSucceeded, false, true, false, true));
    } else if f.pendingPays {
      st := JobGivesUp(p, f, st, 2, 0, Input(ChargePending, true, true, true, true));
    } else {
      st := PaidAndCrashed(p, f, st, 2, 0);
      st := JobGivesUp(p, f, st, 2, 0, FAILURE);
    }
  }

  /** Once its job is over, a FAILED withdrawal is an unpaid one, in every run, exactly when COMPLETED is final,
      workers' writes do not fail, pending answers are never paid and no worker dies - or nothing is ever
      withdrawn. A notification that cannot be queued does no harm here. */
  lemma FailedMeansUnpaidIff(p: Policy, f: Faults)
    ensures FailedMeansUnpaid(p, f) <==>
      (p.admitsProcessing ==> p.completedIsFinal && !f.writesFail && !f.pendingPays && !f.workersCrash)
  {
    if !p.admitsProcessing {
      forall actions, w ensures !FailedThoughPaid(Run(p, actions), w) { NothingCreditedNothingPaid(p, actions); }
    } else if PayoutsAreRecorded(p, f) {
      forall actions, w | AllPermitted(f, actions) ensures !FailedThoughPaid(Run(p, actions), w) {
        RunRecords(p, f, actions);
        assert w in Run(p, actions).workers ==> Recorded(Run(p, actions), w);
      }
    } else if !p.completedIsFinal {
      var st := LateWebhookOverwrites(p, f);
      var actions :| AllPermitted(f, actions) && Run(p, actions) == st;
    } else {
      var st := PayoutIsLost(p, f);
      var actions :| AllPermitted(f, actions) && Run(p, actions) == st;
    }
  }
}
