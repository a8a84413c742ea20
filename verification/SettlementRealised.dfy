/**
 The converse of SettlementRefinement: every run of Settlement can be taken statement by statement, its
 credits as transactions that wait for locks, so the two have exactly the same reachable tables.
 */
module SettlementRealised {
  import opened Wrappers
  import opened Ledger
  import opened LedgerInvariants
  import opened Settlement
  import opened SettlementRefinement
  import Engine = TransactionEngine
  import Serializability
  import LedgerOutcomes
  import SettlementTheorems
  import SettlementPolicies
  import SettlementPayouts

  /** Nothing runs, and only committed rows have used an id. */
  ghost predicate Quiet(d: Detailed) {
    d.engine.txs == map[] && d.credits == map[] && d.engine.used == d.engine.store.transfers.Keys
  }

  lemma TraceOne(p: Policy, f: Faults, steps: seq<Step>, step: Step)
    requires Possible(p, f, Trace(p, f, steps), step)
    ensures Trace(p, f, steps + [step]) == Next(p, f, Trace(p, f, steps), step)
  {
    assert (steps + [step])[..|steps|] == steps;
  }

  lemma TraceIsLinked(p: Policy, f: Faults, steps: seq<Step>)
    ensures Linked(p, Trace(p, f, steps))
  {
    var actions := StatementsRefineSettlement(p, f, steps);
  }

  lemma NoLocks(e: Engine.State)
    requires Serializability.LocksExact(e.txs, e.locks) && e.txs == map[]
    ensures e.locks == map[]
  {
    forall row ensures row !in e.locks {}
  }

  // ----- one transaction alone -----

  /** Since `from`, transaction 0 has begun and taken n statements, and nothing else has happened. */
  ghost predicate Halfway(from: Detailed, d: Detailed, r: Request, credits: map<Engine.TxId, WorkerId>, n: nat) {
    && d.workers == from.workers && d.enqueued == from.enqueued && d.payouts == from.payouts && d.credits == credits
    && d.engine.store == from.engine.store
    && d.engine.used == from.engine.used + (if Inserts(r) then {r.transferId} else {})
    && n <= |Engine.Program(r)| && d.engine.txs.Keys == {0} && d.engine.txs[0].request == r && d.engine.txs[0].pc == n
  }

  /** Under the lock, the row must still be one the policy lets complete. */
  ghost predicate MayComplete(p: Policy, s: Store, r: Request) {
    r.DepositCredit? && p.checkUnderLock ==> Admits(p, StatusOf(s, r.transferId))
  }

  lemma OneStatement(p: Policy, f: Faults, steps: seq<Step>, from: Detailed, r: Request,
                     credits: map<Engine.TxId, WorkerId>, n: nat)
    requires Halfway(from, Trace(p, f, steps), r, credits, n) && n < |Engine.Program(r)|
    requires Engine.Prefix(from.engine.store, r, n + 1).Success?
    requires 0 in credits && n == 2 ==> MayComplete(p, from.engine.store, r) && r.DepositCredit?
    ensures Halfway(from, Trace(p, f, steps + [Statement(Engine.Advance(0))]), r, credits, n + 1)
  {
    TraceIsLinked(p, f, steps);
    var e := Trace(p, f, steps).engine;
    LedgerOutcomes.OneStatementFurther(e, e, 0, r, n);
    TraceOne(p, f, steps, Statement(Engine.Advance(0)));
  }

  /** Statement after statement, up to the n-th. */
  lemma {:induction false} Statements(p: Policy, f: Faults, steps: seq<Step>, from: Detailed, r: Request,
                                      credits: map<Engine.TxId, WorkerId>, n: nat) returns (after: seq<Step>)
    requires Halfway(from, Trace(p, f, steps), r, credits, 0) && n <= |Engine.Program(r)|
    requires Engine.Prefix(from.engine.store, r, n).Success?
    requires 0 in credits && n > 2 ==> MayComplete(p, from.engine.store, r)
    requires 0 in credits ==> r.DepositCredit?
    ensures Halfway(from, Trace(p, f, after), r, credits, n)
  {
    after := steps;
    if n > 0 {
      after := Statements(p, f, steps, from, r, credits, n - 1);
      OneStatement(p, f, after, from, r, credits, n - 1);
      after := after + [Statement(Engine.Advance(0))];
    }
  }

  lemma CommitAlone(e: Engine.State, r: Request)
    requires Serializability.EngineInv(e) && e.txs.Keys == {0} && e.txs[0].request == r
    requires e.txs[0].pc == |Engine.Program(r)|
    ensures Engine.Enabled(e, Engine.Commit(0))
    ensures var e' := Engine.Take(e, Engine.Commit(0));
      && e'.txs == map[] && e'.used == e.used && Execute(e.store, r) == Success(e'.store)
      && e'.store.transfers.Keys == e.store.transfers.Keys + {r.transferId}
  {
    Serializability.CommitExecutes(e, 0);
    ExecuteTables(e.store, r);
  }

  // ----- the environment -----

  lemma CommitOfOthers(p: Policy, f: Faults, steps: seq<Step>, from: Detailed, r: Request)
    requires Halfway(from, Trace(p, f, steps), r, map[], |Engine.Program(r)|) && Inserts(r)
    requires from.engine.used == from.engine.store.transfers.Keys
    ensures var d' := Trace(p, f, steps + [Statement(Engine.Commit(0))]);
      && Quiet(d') && Execute(from.engine.store, r) == Success(d'.engine.store)
      && Abstract(d') == Abstract(from).(store := d'.engine.store)
  {
    TraceIsLinked(p, f, steps);
    CommitAlone(Trace(p, f, steps).engine, r);
    TraceOne(p, f, steps, Statement(Engine.Commit(0)));
  }

  lemma BeginOfOthers(p: Policy, f: Faults, steps: seq<Step>, r: Request)
    requires Quiet(Trace(p, f, steps)) && Inserts(r) && Admitted(Trace(p, f, steps).engine.store, r)
    ensures Halfway(Trace(p, f, steps), Trace(p, f, steps + [Statement(Engine.Begin(0, r))]), r, map[], 0)
  {
    TraceOne(p, f, steps, Statement(Engine.Begin(0, r)));
  }

  lemma RequestIsRealised(p: Policy, f: Faults, steps: seq<Step>, r: Request) returns (after: seq<Step>)
    requires Quiet(Trace(p, f, steps)) && Inserts(r) && Admitted(Trace(p, f, steps).engine.store, r)
    requires Execute(Trace(p, f, steps).engine.store, r).Success?
    ensures var d, d' := Trace(p, f, steps), Trace(p, f, after);
      Quiet(d') && Abstract(d') == Abstract(d).(store := Execute(d.engine.store, r).value)
  {
    var from := Trace(p, f, steps);
    Engine.ProgramIsExecute(from.engine.store, r);
    BeginOfOthers(p, f, steps, r);
    after := Statements(p, f, steps + [Statement(Engine.Begin(0, r))], from, r, map[], |Engine.Program(r)|);
    CommitOfOthers(p, f, after, from, r);
    after := after + [Statement(Engine.Commit(0))];
  }

  lemma RowIsRealised(p: Policy, f: Faults, steps: seq<Step>, e: Event)
    requires Quiet(Trace(p, f, steps)) && Enabled(Abstract(Trace(p, f, steps)), Environment(e)) && !e.Committed?
    ensures var d' := Trace(p, f, steps + [Statement(Engine.Autocommit(e))]);
      Quiet(d') && Abstract(d') == Take(p, Abstract(Trace(p, f, steps)), Environment(e))
  {
    TraceIsLinked(p, f, steps);
    NoLocks(Trace(p, f, steps).engine);
    TraceOne(p, f, steps, Statement(Engine.Autocommit(e)));
  }

  // ----- workers outside a credit -----

  lemma WriteIsPossible(p: Policy, d: Detailed, w: WorkerId, input: Input)
    requires SettlementTheorems.SettlementInv(Abstract(d)) && d.engine.locks == map[] && w in d.workers
    requires d.workers[w].phase == Crediting ==> !input.stored
    requires Writes(p, d, w, input)
    ensures Engine.Enabled(d.engine, Engine.Autocommit(Written(p, d, w, input)))
    ensures Engine.Take(d.engine, Engine.Autocommit(Written(p, d, w, input))).store
         == WorkerStep(p, d.engine.store, d.workers[w], input).store
    ensures WorkerStep(p, d.engine.store, d.workers[w], input).store.transfers.Keys == d.engine.store.transfers.Keys
  {
    assert SettlementTheorems.TaskMatches(Abstract(d).store, Abstract(d).workers[w]);
    var status := SettlementTheorems.StepWrites(p, d.engine.store, d.workers[w], input);
    WriteIsTheStep(p, d, w, input);
  }

  lemma WorkIsRealised(p: Policy, f: Faults, steps: seq<Step>, w: WorkerId, input: Input)
    requires Quiet(Trace(p, f, steps)) && SettlementTheorems.SettlementInv(Abstract(Trace(p, f, steps)))
    requires w in Trace(p, f, steps).workers && Permits(f, Work(w, input))
    requires Trace(p, f, steps).workers[w].phase == Crediting ==> !input.stored
    ensures var d' := Trace(p, f, steps + [WorkerMoves(w, input)]);
      Quiet(d') && Abstract(d') == Take(p, Abstract(Trace(p, f, steps)), Work(w, input))
  {
    var d := Trace(p, f, steps);
    TraceIsLinked(p, f, steps);
    NoLocks(d.engine);
    if Writes(p, d, w, input) { WriteIsPossible(p, d, w, input); }
    TraceOne(p, f, steps, WorkerMoves(w, input));
  }

  // ----- credits -----

  /** Worker w is about to credit its deposit. */
  ghost predicate AboutToCredit(d: Detailed, w: WorkerId) {
    && Quiet(d) && SettlementTheorems.SettlementInv(Abstract(d))
    && w in d.workers && d.workers[w].phase == Crediting
  }

  function CreditOf(d: Detailed, w: WorkerId): Request
    requires w in d.workers
  {
    CreditRequest(d.engine.store, d.workers[w].transferId)
  }

  lemma CreditCanBegin(d: Detailed, w: WorkerId)
    requires AboutToCredit(d, w)
    ensures Engine.Enabled(d.engine, Engine.Begin(0, CreditOf(d, w)))
    ensures CreditOf(d, w).DepositCredit? && CreditOf(d, w).transferId == d.workers[w].transferId
    ensures d.workers[w].transferId in d.engine.store.transfers
  {
    assert SettlementTheorems.TaskMatches(Abstract(d).store, Abstract(d).workers[w]);
    SettlementTheorems.CreditIsValid(d.engine.store, d.workers[w].transferId);
  }

  lemma CreditBegins(p: Policy, f: Faults, steps: seq<Step>, w: WorkerId)
    requires AboutToCredit(Trace(p, f, steps), w)
    ensures var d := Trace(p, f, steps);
      Halfway(d, Trace(p, f, steps + [OpenCredit(w, 0)]), CreditOf(d, w), map[0 := w], 0)
  {
    CreditCanBegin(Trace(p, f, steps), w);
    TraceOne(p, f, steps, OpenCredit(w, 0));
  }

  /** The transaction is over and its worker knows. */
  ghost predicate CreditOver(from: Detailed, d: Detailed, w: WorkerId, store: Store, phase: Phase)
    requires w in from.workers
  {
    && Quiet(d) && d.engine.store == store && d.enqueued == from.enqueued && d.payouts == from.payouts
    && d.workers == from.workers[w := from.workers[w].(phase := phase)]
  }

  lemma CreditCommits(p: Policy, f: Faults, steps: seq<Step>, from: Detailed, w: WorkerId)
    requires AboutToCredit(from, w) && Halfway(from, Trace(p, f, steps), CreditOf(from, w), map[0 := w], 3)
    ensures Execute(from.engine.store, CreditOf(from, w)).Success?
    ensures CreditOver(from, Trace(p, f, steps + [Statement(Engine.Commit(0))]), w,
                       Execute(from.engine.store, CreditOf(from, w)).value, Notifying)
  {
    CreditCanBegin(from, w);
    TraceIsLinked(p, f, steps);
    CommitAlone(Trace(p, f, steps).engine, CreditOf(from, w));
    TraceOne(p, f, steps, Statement(Engine.Commit(0)));
  }

  /** A wallet that does not take the credit stops the transaction at its first statement. */
  lemma CreditFails(p: Policy, f: Faults, steps: seq<Step>, from: Detailed, w: WorkerId)
    requires AboutToCredit(from, w) && Halfway(from, Trace(p, f, steps), CreditOf(from, w), map[0 := w], 0)
    requires Execute(from.engine.store, CreditOf(from, w)).Failure?
    ensures CreditOver(from, Trace(p, f, steps + [Statement(Engine.Advance(0))]), w, from.engine.store, Raised)
  {
    TraceIsLinked(p, f, steps);
    FailureAlone(Trace(p, f, steps).engine, CreditOf(from, w));
    TraceOne(p, f, steps, Statement(Engine.Advance(0)));
  }

  lemma FailureAlone(e: Engine.State, r: Request)
    requires Serializability.EngineInv(e) && e.txs.Keys == {0} && e.txs[0].request == r && e.txs[0].pc == 0
    requires r.DepositCredit? && Execute(e.store, r).Failure?
    ensures Engine.Enabled(e, Engine.Advance(0))
    ensures var e' := Engine.Take(e, Engine.Advance(0)); e'.txs == map[] && e'.used == e.used && e'.store == e.store
  {
    LedgerOutcomes.AloneNothingWaits(e, 0);
    assert Serializability.WorkIsCurrent(e, 0);
    FirstStatementFails(e.store, r);
  }

  lemma FirstStatementFails(s: Store, r: Request)
    requires r.DepositCredit? && Execute(s, r).Failure?
    ensures Engine.Perform(s, Engine.NO_WRITES, Engine.Program(r)[0]).Failure?
  {
    Engine.PublishNothing(s);
    Engine.LockThenWrite(s, Engine.NO_WRITES, CreditPosting(r));
  }

  lemma RefusalAlone(e: Engine.State, r: Request)
    requires Serializability.EngineInv(e) && e.txs.Keys == {0} && e.txs[0].request == r && e.txs[0].pc == 2
    requires r.DepositCredit?
    ensures Engine.Enabled(e, Engine.Advance(0))
    ensures var e' := Engine.Take(e, Engine.Rollback(0)); e'.txs == map[] && e'.used == e.used && e'.store == e.store
  {
    LedgerOutcomes.AloneNothingWaits(e, 0);
  }

  lemma CreditIsRefused(p: Policy, f: Faults, steps: seq<Step>, from: Detailed, w: WorkerId)
    requires AboutToCredit(from, w) && Halfway(from, Trace(p, f, steps), CreditOf(from, w), map[0 := w], 2)
    requires p.checkUnderLock && !Admits(p, StatusOf(from.engine.store, from.workers[w].transferId))
    ensures CreditOver(from, Trace(p, f, steps + [Refuse(0)]), w, from.engine.store, Finished)
  {
    CreditCanBegin(from, w);
    TraceIsLinked(p, f, steps);
    RefusalAlone(Trace(p, f, steps).engine, CreditOf(from, w));
    TraceOne(p, f, steps, Refuse(0));
  }

  lemma CreditOverIsTaken(p: Policy, from: Detailed, d: Detailed, w: WorkerId, input: Input)
    requires w in from.workers && from.workers[w].phase == Crediting
    requires var effect := WorkerStep(p, from.engine.store, from.workers[w], input);
      !effect.paid && CreditOver(from, d, w, effect.store, effect.phase)
    ensures Abstract(d) == Take(p, Abstract(from), Work(w, input))
  {
  }

  /** Refused, where the policy looks again; committed otherwise. */
  lemma GoodCreditIsRealised(p: Policy, f: Faults, steps: seq<Step>, from: Detailed, w: WorkerId)
      returns (after: seq<Step>)
    requires AboutToCredit(from, w) && Halfway(from, Trace(p, f, steps), CreditOf(from, w), map[0 := w], 0)
    requires Execute(from.engine.store, CreditOf(from, w)).Success?
    ensures var refused := p.checkUnderLock && !Admits(p, StatusOf(from.engine.store, from.workers[w].transferId));
      if refused then CreditOver(from, Trace(p, f, after), w, from.engine.store, Finished)
      else CreditOver(from, Trace(p, f, after), w, Execute(from.engine.store, CreditOf(from, w)).value, Notifying)
  {
    var r := CreditOf(from, w);
    CreditCanBegin(from, w);
    Engine.ProgramIsExecute(from.engine.store, r);
    if p.checkUnderLock && !Admits(p, StatusOf(from.engine.store, from.workers[w].transferId)) {
      LedgerOutcomes.PrefixSucceeds(from.engine.store, r, 2);
      after := Statements(p, f, steps, from, r, map[0 := w], 2);
      CreditIsRefused(p, f, after, from, w);
      after := after + [Refuse(0)];
    } else {
      after := Statements(p, f, steps, from, r, map[0 := w], 3);
      CreditCommits(p, f, after, from, w);
      after := after + [Statement(Engine.Commit(0))];
    }
  }

  lemma CreditIsRealised(p: Policy, f: Faults, steps: seq<Step>, w: WorkerId, input: Input) returns (after: seq<Step>)
    requires AboutToCredit(Trace(p, f, steps), w) && input.stored
    ensures Quiet(Trace(p, f, after))
    ensures Abstract(Trace(p, f, after)) == Take(p, Abstract(Trace(p, f, steps)), Work(w, input))
  {
    var from := Trace(p, f, steps);
    CreditBegins(p, f, steps, w);
    after := steps + [OpenCredit(w, 0)];
    if Execute(from.engine.store, CreditOf(from, w)).Failure? {
      CreditFails(p, f, after, from, w);
      after := after + [Statement(Engine.Advance(0))];
    } else {
      after := GoodCreditIsRealised(p, f, after, from, w);
    }
    CreditOverIsTaken(p, from, Trace(p, f, after), w, input);
  }

  // ----- every run -----

  lemma ArrivalIsRealised(p: Policy, f: Faults, steps: seq<Step>, a: Action)
    requires Quiet(Trace(p, f, steps)) && Enabled(Abstract(Trace(p, f, steps)), a) && Permits(f, a)
    requires a.Enqueue? || a.Deliver? || a.Crash?
    ensures var d' := Trace(p, f, steps + [Arrival(a)]);
      Quiet(d') && Abstract(d') == Take(p, Abstract(Trace(p, f, steps)), a)
  {
    TraceOne(p, f, steps, Arrival(a));
  }

  lemma EnvironmentIsRealised(p: Policy, f: Faults, steps: seq<Step>, e: Event) returns (after: seq<Step>)
    requires Quiet(Trace(p, f, steps)) && Enabled(Abstract(Trace(p, f, steps)), Environment(e))
    ensures Quiet(Trace(p, f, after))
    ensures Abstract(Trace(p, f, after)) == Take(p, Abstract(Trace(p, f, steps)), Environment(e))
  {
    if e.Committed? {
      after := RequestIsRealised(p, f, steps, e.request);
    } else {
      RowIsRealised(p, f, steps, e);
      after := steps + [Statement(Engine.Autocommit(e))];
    }
  }

  lemma StepIsRealised(p: Policy, f: Faults, steps: seq<Step>, a: Action) returns (after: seq<Step>)
    requires Quiet(Trace(p, f, steps)) && SettlementTheorems.SettlementInv(Abstract(Trace(p, f, steps)))
    requires Enabled(Abstract(Trace(p, f, steps)), a) && Permits(f, a)
    ensures Quiet(Trace(p, f, after))
    ensures Abstract(Trace(p, f, after)) == Take(p, Abstract(Trace(p, f, steps)), a)
  {
    match a
    case Environment(e) => after := EnvironmentIsRealised(p, f, steps, e);
    case Work(w, input) =>
      if Trace(p, f, steps).workers[w].phase == Crediting && input.stored {
        after := CreditIsRealised(p, f, steps, w, input);
      } else {
        WorkIsRealised(p, f, steps, w, input);
        after := steps + [WorkerMoves(w, input)];
      }
    case _ =>
      ArrivalIsRealised(p, f, steps, a);
      after := steps + [Arrival(a)];
  }

  /** Every run of Settlement is a run statement by statement, under the same policy and faults. */
  lemma {:induction false} SettlementIsRealised(p: Policy, f: Faults, actions: seq<Action>) returns (steps: seq<Step>)
    requires AllPermitted(f, actions)
    ensures Abstract(Trace(p, f, steps)) == Run(p, actions) && Quiet(Trace(p, f, steps))
  {
    steps := [];
    if actions != [] {
      var before, a := actions[..|actions| - 1], actions[|actions| - 1];
      steps := SettlementIsRealised(p, f, before);
      SettlementTheorems.RunKeepsBooks(p, before);
      assert Permits(f, a);
      if Enabled(Run(p, before), a) {
        steps := StepIsRealised(p, f, steps, a);
      }
    }
  }

  ghost predicate ReachableByStatements(p: Policy, f: Faults, st: State) {
    exists steps :: Abstract(Trace(p, f, steps)) == st
  }

  /** Taken in one step or statement by statement, credits lead to exactly the same tables, workers and payouts. */
  lemma SameStatesReachable(p: Policy, f: Faults, st: State)
    ensures Reachable(p, f, st) <==> ReachableByStatements(p, f, st)
  {
    if Reachable(p, f, st) {
      var actions :| AllPermitted(f, actions) && Run(p, actions) == st;
      var steps := SettlementIsRealised(p, f, actions);
    }
    if ReachableByStatements(p, f, st) {
      var steps :| Abstract(Trace(p, f, steps)) == st;
      var actions := StatementsRefineSettlement(p, f, steps);
    }
  }

  // ----- the exact conditions hold statement by statement -----

  ghost predicate CreditsExactlyByStatements(p: Policy, f: Faults) {
    forall steps :: SettlementTheorems.AllDepositsExact(Trace(p, f, steps).engine.store)
  }

  /** Also statement by statement, every deposit is credited once if and only if it is COMPLETED, in every run, exactly
      under the policies that look again under the lock and never reopen a COMPLETED row. */
  lemma ExactlyOnceByStatementsIff(p: Policy, f: Faults)
    ensures CreditsExactlyByStatements(p, f) <==> (p.admitsProcessing ==> p.checkUnderLock && p.completedIsFinal)
  {
    SettlementPolicies.ExactlyOnceIff(p, f);
    if SettlementPolicies.CreditsExactly(p, f) {
      forall steps ensures SettlementTheorems.AllDepositsExact(Trace(p, f, steps).engine.store) {
        var actions := StatementsRefineSettlement(p, f, steps);
      }
    } else {
      var actions :| AllPermitted(f, actions) && !SettlementTheorems.AllDepositsExact(Run(p, actions).store);
      var steps := SettlementIsRealised(p, f, actions);
      assert !SettlementTheorems.AllDepositsExact(Trace(p, f, steps).engine.store);
    }
  }

  ghost predicate PaysAtMostByStatements(p: Policy, f: Faults, times: nat) {
    forall steps, id :: Paid(Abstract(Trace(p, f, steps)), id) <= times
  }

  /** And so is the number of payouts of one withdrawal. */
  lemma PaysAtMostByStatementsIff(p: Policy, f: Faults, times: nat)
    ensures PaysAtMostByStatements(p, f, times) <==> (p.admitsProcessing ==> SettlementPayouts.PayoutBound(f) <= times)
  {
    SettlementPayouts.PaysAtMostIff(p, f, times);
    if SettlementPayouts.PaysAtMost(p, f, times) {
      forall steps, id ensures Paid(Abstract(Trace(p, f, steps)), id) <= times {
        var actions := StatementsRefineSettlement(p, f, steps);
      }
    } else {
      var actions, id :| AllPermitted(f, actions) && Paid(Run(p, actions), id) > times;
      var steps := SettlementIsRealised(p, f, actions);
      assert Paid(Abstract(Trace(p, f, steps)), id) > times;
    }
  }
}
