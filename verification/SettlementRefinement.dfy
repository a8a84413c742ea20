/**
 Settlement with the deposit's credit transaction taken statement by statement, interleaved with the
 statements of every other transaction and waiting for row locks. Every such run is a run of
 Settlement, where the credit is one step, so what holds there in every run holds here.
 */
module SettlementRefinement {
  import opened Wrappers
  import opened Ledger
  import opened LedgerInvariants
  import opened Settlement
  import Engine = TransactionEngine
  import Serializability
  import SettlementTheorems
  import SettlementPolicies
  import SettlementPayouts

  /** `credits` are the open credit transactions and the workers that wait for them. */
  datatype Detailed = Detailed(
    engine: Engine.State, workers: map<WorkerId, Worker>, enqueued: set<TransferId>,
    payouts: map<TransferId, nat>, credits: map<Engine.TxId, WorkerId>)

  const START := Detailed(Engine.INITIAL, map[], {}, map[], map[])

  datatype Step =
    | Statement(statement: Engine.Action)           // of any transaction, or a row outside any
    | Arrival(arrival: Action)                      // a job, a webhook, or the rerun after a crash
    | WorkerMoves(worker: WorkerId, input: Input)   // any worker step but a credit
    | OpenCredit(worker: WorkerId, tx: Engine.TxId) // BEGIN of its credit transaction
    | Refuse(credit: Engine.TxId)                   // its UPDATE finds a row it may not complete, and it rolls back

  function Abstract(d: Detailed): State {
    State(d.engine.store, d.workers, d.enqueued, d.payouts)
  }

  predicate InCredit(d: Detailed, w: WorkerId) {
    exists tx :: tx in d.credits && d.credits[tx] == w
  }

  /** The status a worker step writes, as a statement of its own outside any transaction. */
  function Written(p: Policy, d: Detailed, w: WorkerId, input: Input): Event
    requires w in d.workers
  {
    StatusWritten(d.workers[w].transferId,
                  StatusOf(WorkerStep(p, d.engine.store, d.workers[w], input).store, d.workers[w].transferId))
  }

  predicate Writes(p: Policy, d: Detailed, w: WorkerId, input: Input)
    requires w in d.workers
  {
    WorkerStep(p, d.engine.store, d.workers[w], input).store != d.engine.store
  }

  /** The next statement of an open credit is the UPDATE that completes the row. */
  predicate AboutToComplete(d: Detailed, tx: Engine.TxId) {
    tx in d.credits && tx in d.engine.txs && d.engine.txs[tx].pc == 2
  }

  predicate RowAdmits(p: Policy, e: Engine.State, tx: Engine.TxId)
    requires tx in e.txs
  {
    Admits(p, StatusOf(e.store, e.txs[tx].request.transferId))
  }

  predicate Possible(p: Policy, f: Faults, d: Detailed, step: Step) {
    match step
    case Statement(a) =>
      && Engine.Enabled(d.engine, a)
      && (a.Begin? ==> Inserts(a.request))
      && (a.Autocommit? ==> !a.event.StatusWritten?)
      && (a.Rollback? && a.tx in d.credits ==> f.writesFail)
      && (a.Advance? && p.checkUnderLock && AboutToComplete(d, a.tx) ==> RowAdmits(p, d.engine, a.tx))
    case Arrival(a) =>
      && (a.Enqueue? || a.Deliver? || (a.Crash? && !InCredit(d, a.worker)))
      && Enabled(Abstract(d), a) && Permits(f, a)
    case WorkerMoves(w, input) =>
      && w in d.workers && Permits(f, Work(w, input))
      && (d.workers[w].phase == Crediting ==> !input.stored && !InCredit(d, w))
      && (Writes(p, d, w, input) ==> Engine.Enabled(d.engine, Engine.Autocommit(Written(p, d, w, input))))
    case OpenCredit(w, tx) =>
      && w in d.workers && d.workers[w].phase == Crediting && !InCredit(d, w)
      && Engine.Enabled(d.engine, Engine.Begin(tx, CreditRequest(d.engine.store, d.workers[w].transferId)))
    case Refuse(tx) =>
      && p.checkUnderLock && AboutToComplete(d, tx) && Engine.Enabled(d.engine, Engine.Advance(tx))
      && !RowAdmits(p, d.engine, tx)
  }

  /** What a statement of a credit transaction means to its worker: nothing, or that it has ended. */
  function Ended(d: Detailed, a: Engine.Action): Option<Phase>
    requires Engine.Enabled(d.engine, a)
  {
    match a
    case Advance(tx) => if tx in Engine.Take(d.engine, a).txs then None else Some(Raised)
    case Commit(_) => Some(Notifying)
    case Rollback(_) => Some(Raised)
    case _ => None
  }

  function Tell(d: Detailed, tx: Engine.TxId, phase: Phase): Detailed {
    if tx in d.credits && d.credits[tx] in d.workers
    then
      var w := d.credits[tx];
      d.(workers := d.workers[w := d.workers[w].(phase := phase)], credits := d.credits - {tx})
    else d
  }

  function Next(p: Policy, f: Faults, d: Detailed, step: Step): Detailed
    requires Possible(p, f, d, step)
  {
    match step
    case Statement(a) =>
      var d' := d.(engine := Engine.Take(d.engine, a));
      (match Ended(d, a)
       case None => d'
       case Some(phase) => Tell(d', a.tx, phase))
    case Arrival(a) =>
      var st := Take(p, Abstract(d), a);
      d.(workers := st.workers, enqueued := st.enqueued)
    case WorkerMoves(w, input) =>
      var st := Take(p, Abstract(d), Work(w, input));
      var write := Engine.Autocommit(Written(p, d, w, input));
      d.(engine := if Writes(p, d, w, input) then Engine.Take(d.engine, write) else d.engine,
         workers := st.workers, payouts := st.payouts)
    case OpenCredit(w, tx) =>
      d.(engine := Engine.Take(d.engine, Engine.Begin(tx, CreditRequest(d.engine.store, d.workers[w].transferId))),
         credits := d.credits[tx := w])
    case Refuse(tx) => Tell(d.(engine := Engine.Take(d.engine, Engine.Rollback(tx))), tx, Finished)
  }

  function Trace(p: Policy, f: Faults, steps: seq<Step>): Detailed {
    if steps == [] then START
    else
      var d := Trace(p, f, steps[..|steps| - 1]);
      var step := steps[|steps| - 1];
      if Possible(p, f, d, step) then Next(p, f, d, step) else d
  }

  // ----- the two machines side by side -----

  /** An open credit is its worker's, and would credit what the row still says. */
  ghost predicate GoodCredit(d: Detailed, tx: Engine.TxId)
    requires tx in d.credits
  {
    && tx in d.engine.txs && d.credits[tx] in d.workers
    && var w := d.workers[d.credits[tx]];
    && w.phase == Crediting && w.transferId in d.engine.store.transfers
    && d.engine.txs[tx].request == CreditRequest(d.engine.store, w.transferId)
  }

  ghost predicate CreditsLinked(d: Detailed) {
    && (forall tx :: tx in d.credits ==> GoodCredit(d, tx))
    && (forall tx :: tx in d.engine.txs && d.engine.txs[tx].request.DepositCredit? ==> tx in d.credits)
    && (forall tx, u :: tx in d.credits && u in d.credits && tx != u ==> d.credits[tx] != d.credits[u])
  }

  /** Once a credit has completed its row, the row it locked stays one it may complete. */
  ghost predicate StillAdmitted(p: Policy, d: Detailed) {
    p.checkUnderLock ==>
      forall tx :: tx in d.credits && tx in d.engine.txs && d.engine.txs[tx].pc == 3 ==> RowAdmits(p, d.engine, tx)
  }

  ghost predicate Linked(p: Policy, d: Detailed) {
    Serializability.EngineInv(d.engine) && CreditsLinked(d) && StillAdmitted(p, d)
  }

  /** The step is invisible in Settlement, or one of its steps. */
  ghost predicate Simulated(p: Policy, f: Faults, st: State, st': State) {
    || st' == st
    || exists a :: Enabled(st, a) && Permits(f, a) && st' == Take(p, st, a)
  }

  lemma SameCredit(s: Store, s': Store, id: TransferId)
    requires RowsPersist(s, s') && id in s.transfers
    ensures id in s'.transfers && CreditRequest(s', id) == CreditRequest(s, id)
  {
  }

  /** The credits that remain keep their transaction, their worker and what the row says. */
  ghost predicate CreditsRemain(d: Detailed, d': Detailed) {
    && RowsPersist(d.engine.store, d'.engine.store)
    && (forall tx :: tx in d'.credits ==> tx in d.credits && SameParties(d, d', tx))
    && (forall tx :: tx in d'.engine.txs && d'.engine.txs[tx].request.DepositCredit? ==> tx in d'.credits)
  }

  ghost predicate SameParties(d: Detailed, d': Detailed, tx: Engine.TxId)
    requires tx in d.credits && tx in d'.credits
  {
    && d'.credits[tx] == d.credits[tx]
    && (tx in d.engine.txs ==> tx in d'.engine.txs && d'.engine.txs[tx].request == d.engine.txs[tx].request)
    && (d.credits[tx] in d.workers ==>
          d.credits[tx] in d'.workers && d'.workers[d.credits[tx]] == d.workers[d.credits[tx]])
  }

  lemma RemainingCredits(d: Detailed, d': Detailed)
    requires CreditsLinked(d) && CreditsRemain(d, d')
    ensures CreditsLinked(d')
  {
    forall tx | tx in d'.credits ensures GoodCredit(d', tx) {
      assert GoodCredit(d, tx);
      SameCredit(d.engine.store, d'.engine.store, d.workers[d.credits[tx]].transferId);
    }
  }

  /** The engine's own invariant, and what its step leaves of rows and of other transactions. */
  lemma EngineStep(e: Engine.State, a: Engine.Action)
    requires Serializability.EngineInv(e) && Engine.Enabled(e, a)
    ensures Serializability.EngineInv(Engine.Take(e, a)) && RowsPersist(e.store, Engine.Take(e, a).store)
  {
    Serializability.TakeKeeps(e, a);
    match a
    case Commit(tx) =>
      Serializability.CommitPublishes(e, tx);
      EventPersists(e.store, Committed(e.txs[tx].request));
    case Autocommit(event) => EventPersists(e.store, event);
    case _ =>
  }

  lemma OtherTransactionsStay(e: Engine.State, a: Engine.Action, tx: Engine.TxId)
    requires Engine.Enabled(e, a) && tx in e.txs && (a.Commit? || a.Rollback? ==> a.tx != tx)
    requires a.Advance? && a.tx == tx ==> tx in Engine.Take(e, a).txs
    ensures tx in Engine.Take(e, a).txs && Engine.Take(e, a).txs[tx].request == e.txs[tx].request
  {
  }

  lemma OnlyBeginAdds(e: Engine.State, a: Engine.Action, tx: Engine.TxId)
    requires Engine.Enabled(e, a) && tx in Engine.Take(e, a).txs
    ensures (tx in e.txs && Engine.Take(e, a).txs[tx].request == e.txs[tx].request) || (a.Begin? && tx == a.tx)
    ensures a.Begin? && tx == a.tx ==> Engine.Take(e, a).txs[tx].request == a.request
  {
  }

  // ----- a completed row stays locked, and so as it was found -----

  lemma CompletedRowIsLocked(e: Engine.State, tx: Engine.TxId)
    requires Serializability.LocksExact(e.txs, e.locks) && tx in e.txs
    requires e.txs[tx].request.DepositCredit? && e.txs[tx].pc == 3
    ensures var row := Engine.TransferRow(e.txs[tx].request.transferId); row in e.locks && e.locks[row] == tx
  {
    var r := e.txs[tx].request;
    assert Serializability.Held(r, 3) == Serializability.Held(r, 2) + Serializability.NeedSet(Engine.Program(r)[2]);
  }

  lemma OtherRowsStay(s: Store, r: Request, id: TransferId)
    requires Execute(s, r).Success? && id != r.transferId
    ensures StatusOf(Execute(s, r).value, id) == StatusOf(s, id)
  {
    ExecuteTables(s, r);
  }

  /** Two transactions at their commit never write the same row. */
  lemma OwnRow(e: Engine.State, tx: Engine.TxId, other: Engine.TxId)
    requires Serializability.LocksExact(e.txs, e.locks) && tx in e.txs && other in e.txs && other != tx
    requires e.txs[tx].request.DepositCredit? && e.txs[tx].pc == 3
    requires e.txs[tx].request.transferId in e.store.transfers
    requires Inserts(e.txs[other].request) <==> e.txs[other].request.transferId !in e.store.transfers
    requires e.txs[other].pc == |Engine.Program(e.txs[other].request)|
    ensures e.txs[other].request.transferId != e.txs[tx].request.transferId
  {
    CompletedRowIsLocked(e, tx);
    if e.txs[other].request.DepositCredit? { CompletedRowIsLocked(e, other); }
  }

  lemma CommitSparesRow(e: Engine.State, tx: Engine.TxId, other: Engine.TxId)
    requires Serializability.EngineInv(e) && tx in e.txs && e.txs[tx].request.DepositCredit? && e.txs[tx].pc == 3
    requires Engine.Enabled(e, Engine.Commit(other)) && other != tx
    ensures var id := e.txs[tx].request.transferId;
      StatusOf(Engine.Take(e, Engine.Commit(other)).store, id) == StatusOf(e.store, id)
  {
    Serializability.CommitExecutes(e, other);
    Serializability.OwnRowKnown(e, tx);
    OwnRow(e, tx, other);
    OtherRowsStay(e.store, e.txs[other].request, e.txs[tx].request.transferId);
  }

  lemma AutocommitSparesRow(e: Engine.State, event: Event, id: TransferId)
    requires Engine.Enabled(e, Engine.Autocommit(event)) && Engine.TransferRow(id) in e.locks && id in e.store.transfers
    ensures StatusOf(ApplyEvent(e.store, event).value, id) == StatusOf(e.store, id)
  {
  }

  lemma HeldRowStays(e: Engine.State, a: Engine.Action, tx: Engine.TxId)
    requires Serializability.EngineInv(e) && Engine.Enabled(e, a) && (a.Commit? ==> a.tx != tx)
    requires tx in e.txs && e.txs[tx].request.DepositCredit? && e.txs[tx].pc == 3
    ensures var id := e.txs[tx].request.transferId; StatusOf(Engine.Take(e, a).store, id) == StatusOf(e.store, id)
  {
    match a
    case Commit(other) => CommitSparesRow(e, tx, other);
    case Autocommit(event) =>
      CompletedRowIsLocked(e, tx);
      assert ValidationError(e.store, e.txs[tx].request).None?;
      AutocommitSparesRow(e, event, e.txs[tx].request.transferId);
    case _ =>
  }

  lemma OneStillAdmitted(p: Policy, d: Detailed, a: Engine.Action, tx: Engine.TxId)
    requires Serializability.EngineInv(d.engine) && Engine.Enabled(d.engine, a) && p.checkUnderLock
    requires tx in d.credits && tx in d.engine.txs && d.engine.txs[tx].request.DepositCredit?
    requires (d.engine.txs[tx].pc == 3 ==> RowAdmits(p, d.engine, tx)) && (a.Commit? ==> a.tx != tx)
    requires a.Advance? && a.tx == tx && AboutToComplete(d, tx) ==> RowAdmits(p, d.engine, tx)
    requires tx in Engine.Take(d.engine, a).txs && Engine.Take(d.engine, a).txs[tx].pc == 3
    ensures RowAdmits(p, Engine.Take(d.engine, a), tx)
  {
    if d.engine.txs[tx].pc == 3 {
      HeldRowStays(d.engine, a, tx);
    }
  }

  lemma AdmissionStays(p: Policy, d: Detailed, a: Engine.Action, d': Detailed)
    requires Linked(p, d) && Engine.Enabled(d.engine, a) && d'.engine == Engine.Take(d.engine, a)
    requires forall tx :: tx in d'.credits ==> tx in d.credits || (tx in d'.engine.txs && d'.engine.txs[tx].pc == 0)
    requires a.Commit? ==> a.tx !in d'.credits
    requires a.Advance? && p.checkUnderLock && AboutToComplete(d, a.tx) ==> RowAdmits(p, d.engine, a.tx)
    ensures StillAdmitted(p, d')
  {
    if p.checkUnderLock {
      forall tx | tx in d'.credits && tx in d'.engine.txs && d'.engine.txs[tx].pc == 3
        ensures RowAdmits(p, d'.engine, tx)
      {
        assert GoodCredit(d, tx);
        OneStillAdmitted(p, d, a, tx);
      }
    }
  }

  // ----- statements -----

  lemma OthersLinked(d: Detailed, a: Engine.Action)
    requires CreditsLinked(d) && Engine.Enabled(d.engine, a) && (a.Begin? ==> Inserts(a.request))
    requires RowsPersist(d.engine.store, Engine.Take(d.engine, a).store)
    requires Ended(d, a).Some? ==> a.tx !in d.credits
    ensures CreditsLinked(d.(engine := Engine.Take(d.engine, a)))
  {
    var d' := d.(engine := Engine.Take(d.engine, a));
    forall tx | tx in d'.credits ensures SameParties(d, d', tx) {
      assert GoodCredit(d, tx);
      OtherTransactionsStay(d.engine, a, tx);
    }
    forall tx | tx in d'.engine.txs && d'.engine.txs[tx].request.DepositCredit? ensures tx in d'.credits {
      OnlyBeginAdds(d.engine, a, tx);
    }
    RemainingCredits(d, d');
  }

  /** Statements that end no credit: Settlement sees the commits of others and rows written outside. */
  lemma StatementOfOthers(p: Policy, f: Faults, d: Detailed, a: Engine.Action)
    requires Linked(p, d) && Possible(p, f, d, Statement(a))
    requires Ended(d, a).Some? ==> a.tx !in d.credits
    ensures var d' := Next(p, f, d, Statement(a));
      Linked(p, d') && Simulated(p, f, Abstract(d), Abstract(d'))
  {
    assert Next(p, f, d, Statement(a)) == d.(engine := Engine.Take(d.engine, a));
    EngineStep(d.engine, a);
    OthersLinked(d, a);
    AdmissionStays(p, d, a, Next(p, f, d, Statement(a)));
    StatementSeen(p, f, d, a);
  }

  lemma StatementSeen(p: Policy, f: Faults, d: Detailed, a: Engine.Action)
    requires Linked(p, d) && Possible(p, f, d, Statement(a)) && (a.Commit? ==> a.tx !in d.credits)
    ensures Simulated(p, f, Abstract(d), Abstract(d).(store := Engine.Take(d.engine, a).store))
  {
    var st := Abstract(d);
    match a
    case Commit(tx) =>
      var r := d.engine.txs[tx].request;
      Serializability.CommitExecutes(d.engine, tx);
      Serializability.CommitPublishes(d.engine, tx);
      assert Admitted(st.store, r);
      assert Enabled(st, Environment(Committed(r)));
      assert Permits(f, Environment(Committed(r)));
    case Autocommit(event) =>
      assert Enabled(st, Environment(event));
      assert Permits(f, Environment(event));
    case _ =>
  }

  /** The credit's statement that fails makes the whole transaction, run alone, fail. */
  lemma FailedStatement(s: Store, r: Request, n: nat)
    requires n <= |Engine.Program(r)| && Engine.Prefix(s, r, n).Failure?
    ensures Engine.Prefix(s, r, |Engine.Program(r)|).Failure?
    decreases |Engine.Program(r)| - n
  {
    if n < |Engine.Program(r)| {
      FailedStatement(s, r, n + 1);
    }
  }

  lemma FailedCredit(e: Engine.State, tx: Engine.TxId)
    requires Serializability.EngineInv(e) && Engine.Enabled(e, Engine.Advance(tx)) && e.txs[tx].request.DepositCredit?
    requires tx !in Engine.Take(e, Engine.Advance(tx)).txs
    ensures Execute(e.store, e.txs[tx].request).Failure?
    ensures Engine.Take(e, Engine.Advance(tx)) == Engine.Forget(e, tx)
  {
    var t := e.txs[tx];
    assert Serializability.WorkIsCurrent(e, tx);
    Serializability.WorkAfterAdvance(e.store, t);
    FailedStatement(e.store, t.request, t.pc + 1);
    Serializability.OwnRowKnown(e, tx);
    Engine.ProgramIsExecute(e.store, t.request);
  }

  const DONE := Input(ChargeSucceeded, false, true, true, true)
  const REFUSED := Input(ChargeSucceeded, false, true, false, true)

  /** How Settlement sees the end of a credit. */
  function EndInput(a: Engine.Action): Input {
    if a.Rollback? then REFUSED else DONE
  }

  lemma CommitSeen(p: Policy, e: Engine.State, tx: Engine.TxId, w: Worker)
    requires Serializability.EngineInv(e) && Engine.Enabled(e, Engine.Commit(tx))
    requires w.phase == Crediting && e.txs[tx].request == CreditRequest(e.store, w.transferId)
    requires p.checkUnderLock ==> RowAdmits(p, e, tx)
    ensures WorkerStep(p, e.store, w, DONE) == Go(Engine.Take(e, Engine.Commit(tx)).store, Notifying)
  {
    Serializability.CommitExecutes(e, tx);
  }

  lemma FailureSeen(p: Policy, e: Engine.State, tx: Engine.TxId, w: Worker)
    requires Serializability.EngineInv(e) && Engine.Enabled(e, Engine.Advance(tx))
    requires tx !in Engine.Take(e, Engine.Advance(tx)).txs
    requires w.phase == Crediting && e.txs[tx].request == CreditRequest(e.store, w.transferId)
    ensures WorkerStep(p, e.store, w, DONE) == Go(Engine.Take(e, Engine.Advance(tx)).store, Raised)
  {
    FailedCredit(e, tx);
  }

  /** A credit that has come to its last statement would, alone, succeed. */
  lemma PostedCreditExecutes(e: Engine.State, tx: Engine.TxId)
    requires Serializability.EngineInv(e) && tx in e.txs && e.txs[tx].request.DepositCredit? && e.txs[tx].pc == 2
    ensures Execute(e.store, e.txs[tx].request).Success?
  {
    var t := e.txs[tx];
    assert Serializability.WorkIsCurrent(e, tx);
    Serializability.WorkAfterAdvance(e.store, t);
    Serializability.OwnRowKnown(e, tx);
    Engine.ProgramIsExecute(e.store, t.request);
  }

  lemma RefusalSeen(p: Policy, e: Engine.State, tx: Engine.TxId, w: Worker)
    requires Serializability.EngineInv(e) && tx in e.txs && e.txs[tx].request.DepositCredit? && e.txs[tx].pc == 2
    requires p.checkUnderLock && !RowAdmits(p, e, tx)
    requires w.phase == Crediting && e.txs[tx].request == CreditRequest(e.store, w.transferId)
    ensures WorkerStep(p, e.store, w, DONE) == Go(e.store, Finished)
  {
    PostedCreditExecutes(e, tx);
  }

  lemma CreditEndSeen(p: Policy, f: Faults, d: Detailed, a: Engine.Action)
    requires Serializability.EngineInv(d.engine) && StillAdmitted(p, d)
    requires Engine.Enabled(d.engine, a) && Ended(d, a).Some? && a.tx in d.credits && GoodCredit(d, a.tx)
    ensures var w := d.workers[d.credits[a.tx]];
      WorkerStep(p, d.engine.store, w, EndInput(a)) == Go(Engine.Take(d.engine, a).store, Ended(d, a).value)
  {
    var w := d.workers[d.credits[a.tx]];
    match a
    case Advance(tx) => FailureSeen(p, d.engine, tx, w);
    case Commit(tx) => CommitSeen(p, d.engine, tx, w);
    case Rollback(_) =>
  }

  lemma EndedIsGone(d: Detailed, a: Engine.Action)
    requires Engine.Enabled(d.engine, a) && Ended(d, a).Some?
    ensures Engine.Take(d.engine, a).txs == d.engine.txs - {a.tx}
  {
  }

  lemma LinkedAfterEnd(d: Detailed, e: Engine.State, tx: Engine.TxId, phase: Phase)
    requires CreditsLinked(d) && tx in d.credits && d.credits[tx] in d.workers
    requires RowsPersist(d.engine.store, e.store) && e.txs == d.engine.txs - {tx}
    ensures CreditsLinked(Tell(d.(engine := e), tx, phase)) && Tell(d.(engine := e), tx, phase).engine == e
  {
    var d' := Tell(d.(engine := e), tx, phase);
    forall u | u in d'.credits ensures SameParties(d, d', u) {
      assert GoodCredit(d, u);
    }
    RemainingCredits(d, d');
  }

  lemma CreditEnds(p: Policy, f: Faults, d: Detailed, a: Engine.Action)
    requires Linked(p, d) && Possible(p, f, d, Statement(a))
    requires Ended(d, a).Some? && a.tx in d.credits
    ensures Linked(p, Next(p, f, d, Statement(a)))
    ensures Simulated(p, f, Abstract(d), Abstract(Next(p, f, d, Statement(a))))
  {
    assert GoodCredit(d, a.tx);
    EngineStep(d.engine, a);
    EndedIsGone(d, a);
    LinkedAfterEnd(d, Engine.Take(d.engine, a), a.tx, Ended(d, a).value);
    var d' := Next(p, f, d, Statement(a));
    assert d' == Tell(d.(engine := Engine.Take(d.engine, a)), a.tx, Ended(d, a).value);
    AdmissionStays(p, d, a, d');
    CreditEndIsAStep(p, f, d, a);
  }

  lemma CreditEndIsAStep(p: Policy, f: Faults, d: Detailed, a: Engine.Action)
    requires Linked(p, d) && Engine.Enabled(d.engine, a) && Ended(d, a).Some?
    requires a.tx in d.credits && GoodCredit(d, a.tx) && (a.Rollback? ==> f.writesFail)
    ensures Simulated(p, f, Abstract(d),
      Abstract(Tell(d.(engine := Engine.Take(d.engine, a)), a.tx, Ended(d, a).value)))
  {
    CreditEndSeen(p, f, d, a);
    TellIsSimulated(p, f, d, Engine.Take(d.engine, a), a.tx, EndInput(a), Ended(d, a).value);
  }

  lemma TellIsSimulated(p: Policy, f: Faults, d: Detailed, e: Engine.State, tx: Engine.TxId, input: Input, phase: Phase)
    requires tx in d.credits && d.credits[tx] in d.workers && d.workers[d.credits[tx]].phase == Crediting
    requires WorkerStep(p, d.engine.store, d.workers[d.credits[tx]], input) == Go(e.store, phase)
    requires Permits(f, Work(d.credits[tx], input))
    ensures Simulated(p, f, Abstract(d), Abstract(Tell(d.(engine := e), tx, phase)))
  {
    assert Enabled(Abstract(d), Work(d.credits[tx], input));
    TellIsTake(p, d, e, tx, input, phase);
  }

  lemma TellIsTake(p: Policy, d: Detailed, e: Engine.State, tx: Engine.TxId, input: Input, phase: Phase)
    requires tx in d.credits && d.credits[tx] in d.workers && d.workers[d.credits[tx]].phase == Crediting
    requires WorkerStep(p, d.engine.store, d.workers[d.credits[tx]], input) == Go(e.store, phase)
    ensures Abstract(Tell(d.(engine := e), tx, phase)) == Take(p, Abstract(d), Work(d.credits[tx], input))
  {
  }

  lemma RefuseSeen(p: Policy, f: Faults, d: Detailed, tx: Engine.TxId)
    requires Linked(p, d) && Possible(p, f, d, Refuse(tx))
    ensures Linked(p, Next(p, f, d, Refuse(tx)))
    ensures Simulated(p, f, Abstract(d), Abstract(Next(p, f, d, Refuse(tx))))
  {
    assert GoodCredit(d, tx);
    var a := Engine.Rollback(tx);
    var e := Engine.Take(d.engine, a);
    EngineStep(d.engine, a);
    EndedIsGone(d, a);
    LinkedAfterEnd(d, e, tx, Finished);
    AdmissionStays(p, d, a, Tell(d.(engine := e), tx, Finished));
    RefusalSeen(p, d.engine, tx, d.workers[d.credits[tx]]);
    TellIsSimulated(p, f, d, e, tx, DONE, Finished);
  }

  // ----- workers -----

  lemma WriteIsTheStep(p: Policy, d: Detailed, w: WorkerId, input: Input)
    requires w in d.workers && Writes(p, d, w, input) && (d.workers[w].phase == Crediting ==> !input.stored)
    requires Engine.Enabled(d.engine, Engine.Autocommit(Written(p, d, w, input)))
    ensures Engine.Take(d.engine, Engine.Autocommit(Written(p, d, w, input))).store
         == WorkerStep(p, d.engine.store, d.workers[w], input).store
  {
    var s, worker := d.engine.store, d.workers[w];
    var s' := WorkerStep(p, s, worker, input).store;
    assert s' == SetStatus(s, worker.transferId, StatusOf(s', worker.transferId));
  }

  /** A worker that is not in a credit leaves every credit alone. */
  lemma CreditsBesideWorker(d: Detailed, d': Detailed, w: WorkerId)
    requires CreditsLinked(d) && d'.credits == d.credits && d'.engine.txs == d.engine.txs && !InCredit(d, w)
    requires RowsPersist(d.engine.store, d'.engine.store)
    requires forall u :: u in d.workers && u != w ==> u in d'.workers && d'.workers[u] == d.workers[u]
    ensures CreditsLinked(d')
  {
    RemainingCredits(d, d');
  }

  lemma OnlyCreditingIsInCredit(d: Detailed, w: WorkerId)
    requires CreditsLinked(d) && InCredit(d, w)
    ensures w in d.workers && d.workers[w].phase == Crediting
  {
    var tx :| tx in d.credits && d.credits[tx] == w;
    assert GoodCredit(d, tx);
  }

  lemma WorkerStepSeen(p: Policy, f: Faults, d: Detailed, w: WorkerId, input: Input)
    requires Linked(p, d) && Possible(p, f, d, WorkerMoves(w, input))
    ensures Linked(p, Next(p, f, d, WorkerMoves(w, input)))
    ensures Simulated(p, f, Abstract(d), Abstract(Next(p, f, d, WorkerMoves(w, input))))
  {
    var d' := Next(p, f, d, WorkerMoves(w, input));
    if InCredit(d, w) { OnlyCreditingIsInCredit(d, w); }
    if Writes(p, d, w, input) {
      EngineStep(d.engine, Engine.Autocommit(Written(p, d, w, input)));
      WriteIsTheStep(p, d, w, input);
      AdmissionStays(p, d, Engine.Autocommit(Written(p, d, w, input)), d');
    }
    CreditsBesideWorker(d, d', w);
    assert Enabled(Abstract(d), Work(w, input));
    assert Abstract(d') == Take(p, Abstract(d), Work(w, input));
  }

  lemma CreditsBesideArrival(d: Detailed, d': Detailed)
    requires CreditsLinked(d) && d'.credits == d.credits && d'.engine == d.engine
    requires forall u :: u in d.workers ==> u in d'.workers && d'.workers[u] == d.workers[u]
    ensures CreditsLinked(d')
  {
    RemainingCredits(d, d');
  }

  lemma ArrivalSeen(p: Policy, f: Faults, d: Detailed, a: Action)
    requires Linked(p, d) && Possible(p, f, d, Arrival(a))
    ensures Linked(p, Next(p, f, d, Arrival(a)))
    ensures Simulated(p, f, Abstract(d), Abstract(Next(p, f, d, Arrival(a))))
  {
    var d' := Next(p, f, d, Arrival(a));
    if a.Crash? { CreditsBesideWorker(d, d', a.worker); } else { CreditsBesideArrival(d, d'); }
    assert Abstract(d') == Take(p, Abstract(d), a);
  }

  /** Opening a credit is invisible: the worker stays where it is until the transaction ends. */
  lemma OpenedIsLinked(d: Detailed, w: WorkerId, tx: Engine.TxId)
    requires CreditsLinked(d) && w in d.workers && d.workers[w].phase == Crediting && !InCredit(d, w)
    requires Engine.Enabled(d.engine, Engine.Begin(tx, CreditRequest(d.engine.store, d.workers[w].transferId)))
    ensures CreditsLinked(d.(
      engine := Engine.Take(d.engine, Engine.Begin(tx, CreditRequest(d.engine.store, d.workers[w].transferId))),
      credits := d.credits[tx := w]))
  {
    var r := CreditRequest(d.engine.store, d.workers[w].transferId);
    var d' := d.(engine := Engine.Take(d.engine, Engine.Begin(tx, r)), credits := d.credits[tx := w]);
    forall u | u in d'.credits ensures GoodCredit(d', u) {
      if u != tx { assert GoodCredit(d, u); }
    }
  }

  lemma OpenCreditSeen(p: Policy, f: Faults, d: Detailed, w: WorkerId, tx: Engine.TxId)
    requires Linked(p, d) && Possible(p, f, d, OpenCredit(w, tx))
    ensures Linked(p, Next(p, f, d, OpenCredit(w, tx)))
    ensures Abstract(Next(p, f, d, OpenCredit(w, tx))) == Abstract(d)
  {
    EngineStep(d.engine, Engine.Begin(tx, CreditRequest(d.engine.store, d.workers[w].transferId)));
    OpenedIsLinked(d, w, tx);
    AdmissionStays(p, d, Engine.Begin(tx, CreditRequest(d.engine.store, d.workers[w].transferId)),
                   Next(p, f, d, OpenCredit(w, tx)));
  }

  lemma StepSeen(p: Policy, f: Faults, d: Detailed, step: Step)
    requires Linked(p, d) && Possible(p, f, d, step)
    ensures Linked(p, Next(p, f, d, step)) && Simulated(p, f, Abstract(d), Abstract(Next(p, f, d, step)))
  {
    match step
    case Statement(a) =>
      if Ended(d, a).Some? && a.tx in d.credits { CreditEnds(p, f, d, a); } else { StatementOfOthers(p, f, d, a); }
    case Arrival(a) => ArrivalSeen(p, f, d, a);
    case WorkerMoves(w, input) => WorkerStepSeen(p, f, d, w, input);
    case OpenCredit(w, tx) => OpenCreditSeen(p, f, d, w, tx);
    case Refuse(tx) => RefuseSeen(p, f, d, tx);
  }

  // ----- the theorems -----

  /** Every statement-level run is, step by step, a run of Settlement under the same policy and faults. */
  lemma {:induction false} StatementsRefineSettlement(p: Policy, f: Faults, steps: seq<Step>)
    returns (actions: seq<Action>)
    ensures AllPermitted(f, actions) && Run(p, actions) == Abstract(Trace(p, f, steps))
    ensures Linked(p, Trace(p, f, steps))
  {
    if steps == [] {
      actions := [];
      Serializability.ReachableInv([]);
    } else {
      var before, step := steps[..|steps| - 1], steps[|steps| - 1];
      actions := StatementsRefineSettlement(p, f, before);
      var d := Trace(p, f, before);
      if Possible(p, f, d, step) {
        StepSeen(p, f, d, step);
        actions := Follow(p, f, actions, Abstract(d), Abstract(Next(p, f, d, step)));
      }
    }
  }

  lemma Follow(p: Policy, f: Faults, actions: seq<Action>, st: State, st': State) returns (longer: seq<Action>)
    requires AllPermitted(f, actions) && Run(p, actions) == st && Simulated(p, f, st, st')
    ensures AllPermitted(f, longer) && Run(p, longer) == st'
  {
    longer := actions;
    if st' != st {
      var a :| Enabled(st, a) && Permits(f, a) && st' == Take(p, st, a);
      longer := actions + [a];
      assert longer[..|actions|] == actions;
    }
  }

  /** So, statement by statement too: as written nothing is ever credited... */
  lemma NothingCreditedStatementByStatement(f: Faults, steps: seq<Step>)
    ensures var s := Trace(AS_WRITTEN, f, steps).engine.store;
      s.ledger == [] && forall w :: w in s.wallets ==> s.wallets[w].balance == 0
  {
    var actions := StatementsRefineSettlement(AS_WRITTEN, f, steps);
    SettlementTheorems.AsWrittenNothingIsEverCredited(actions);
  }

  /** ... under the policies that protect the credit every deposit is credited once if and only if COMPLETED... */
  lemma ExactlyOnceStatementByStatement(p: Policy, f: Faults, steps: seq<Step>)
    requires p.admitsProcessing ==> p.checkUnderLock && p.completedIsFinal
    ensures SettlementTheorems.AllDepositsExact(Trace(p, f, steps).engine.store)
  {
    var actions := StatementsRefineSettlement(p, f, steps);
    SettlementPolicies.ExactlyOnceIff(p, f);
    assert SettlementPolicies.CreditsExactly(p, f);
  }

  /** ... and no withdrawal is paid out more often than the faults allow. */
  lemma PayoutsStatementByStatement(p: Policy, f: Faults, steps: seq<Step>, id: TransferId)
    ensures Paid(Abstract(Trace(p, f, steps)), id) <= SettlementPayouts.PayoutBound(f)
  {
    var actions := StatementsRefineSettlement(p, f, steps);
    SettlementPayouts.PayoutsWithinBound(p, f, actions);
  }
}
