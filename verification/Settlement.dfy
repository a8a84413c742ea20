/**
 Settlement of deposits and withdrawals by queue jobs, their retries and failure hooks, and webhook
 deliveries. A worker's reads, the provider's answer and every status write are separate steps, and
 any write may fail, so any number of workers on the same transfer interleave freely.

 The balance change of `completeDeposit` is one database transaction and one step here;
 SettlementRefinement takes it apart.
 */
module Settlement {
  import opened Wrappers
  import opened Ledger
  import opened LedgerInvariants

  type WorkerId = nat

  /** The code as written is Policy(false, false, false). */
  datatype Policy = Policy(
    admitsProcessing: bool,    // completeDeposit's guard accepts PROCESSING and not only PENDING
    checkUnderLock: bool,      // the guard is evaluated again by the transaction's UPDATE of the row it completes
    completedIsFinal: bool)    // status writes skip a COMPLETED row

  const AS_WRITTEN := Policy(false, false, false)

  predicate Admits(p: Policy, status: TransferStatus) {
    status == Pending || (p.admitsProcessing && status == Processing)
  }

  // ----- workers -----

  datatype Outcome = ChargeSucceeded | ChargePending | ChargeFailed

  /** The status a webhook reports, after parsing; anything else is ignored. */
  datatype Report = ReportedSuccess | ReportedFailure | ReportedOther

  datatype Task = DepositJob | WithdrawalJob | WebhookJob(report: Report)

  datatype Phase =
    | Ready                              // queued, or waiting for its next attempt
    | Charging                           // deposit job: PROCESSING written, provider not yet answered
    | Checking                           // entering completeDeposit
    | Crediting                          // its guard passed
    | Notifying                          // the change is committed, the notification is not yet queued
    | Updating(target: TransferStatus)   // decided on a status write, not yet made
    | Raised                             // the handler threw
    | Finished

  /** `stalled` is whether the queue has already run the job again after a crash, which it does once. */
  datatype Worker = Worker(task: Task, transferId: TransferId, attemptsMade: nat, stalled: bool, phase: Phase)

  /** `payouts` counts the provider's disbursements of each withdrawal: those it reports at once, and those it
      first calls pending and makes later. */
  datatype State = State(
    store: Store, workers: map<WorkerId, Worker>, enqueued: set<TransferId>, payouts: map<TransferId, nat>)

  const IDLE := State(EMPTY_STORE, map[], {}, map[])

  function MaxAttempts(task: Task): nat {
    if task.WebhookJob? then 5 else 3
  }

  // ----- the writes workers make -----

  function StatusOf(s: Store, id: TransferId): TransferStatus {
    if id in s.transfers then s.transfers[id].status else Pending
  }

  function WriteStatus(p: Policy, s: Store, id: TransferId, status: TransferStatus): Store {
    if p.completedIsFinal && StatusOf(s, id) == Completed then s else SetStatus(s, id, status)
  }

  function CreditRequest(s: Store, id: TransferId): Request {
    if id in s.transfers && s.transfers[id].destination.Some?
    then DepositCredit(id, s.transfers[id].destination.value, s.transfers[id].amount, s.transfers[id].fee)
    else DepositCredit(id, 0, 0, 0)
  }

  // ----- one step of one worker -----

  /** What a step needs from outside: the provider's answer, whether it pays later what it calls pending,
      whether the database takes an attempt's opening write (`marked`) and its later one (`stored`), and
      whether the notification is queued. */
  datatype Input = Input(outcome: Outcome, paysLater: bool, marked: bool, stored: bool, queued: bool)

  datatype Effect = Effect(store: Store, phase: Phase, paid: bool)

  function Go(store: Store, phase: Phase): Effect {
    Effect(store, phase, false)
  }

  function DepositStep(p: Policy, s: Store, w: Worker, input: Input): Effect {
    if w.phase == Ready then
      if input.marked then Go(WriteStatus(p, s, w.transferId, Processing), Charging) else Go(s, Raised)
    else match input.outcome
      case ChargeSucceeded => Go(s, Checking)
      case ChargePending => Go(s, Updating(Processing))
      case ChargeFailed => Go(s, Updating(Failed))
  }

  /** A pending disbursement takes the failure branch, whatever becomes of it. The answer is not written yet. */
  function WithdrawalStep(s: Store, input: Input): Effect {
    match input.outcome
    case ChargeSucceeded => Effect(s, Updating(Completed), true)
    case ChargePending => Effect(s, Updating(Failed), input.paysLater)
    case ChargeFailed => Go(s, Updating(Failed))
  }

  function WebhookStep(s: Store, w: Worker): Effect
    requires w.task.WebhookJob?
  {
    if w.transferId !in s.transfers then Go(s, Finished)
    else
      var row := s.transfers[w.transferId];
      if row.status == Completed || row.status == Failed then Go(s, Finished)
      else if w.task.report == ReportedSuccess && row.status == Processing then
        if row.kind == Deposit then Go(s, Checking) else Go(s, Updating(Completed))
      else if w.task.report == ReportedFailure then Go(s, Updating(Failed))
      else Go(s, Finished)
  }

  /** A job that writes FAILED throws; a paid withdrawal has its notification to queue. */
  function AfterUpdate(task: Task, target: TransferStatus): Phase {
    match task
    case WebhookJob(_) => Finished
    case DepositJob => if target == Failed then Raised else Finished
    case WithdrawalJob => if target == Failed then Raised else Notifying
  }

  function UpdateStep(p: Policy, s: Store, w: Worker, target: TransferStatus, input: Input): Effect {
    if input.stored then Go(WriteStatus(p, s, w.transferId, target), AfterUpdate(w.task, target)) else Go(s, Raised)
  }

  function CompleteDepositStep(p: Policy, s: Store, w: Worker, input: Input): Effect {
    match w.phase
    case Checking =>
      var admitted := w.transferId in s.transfers && Admits(p, StatusOf(s, w.transferId));
      Go(s, if admitted then Crediting else Finished)
    case Crediting =>
      if !input.stored then Go(s, Raised)
      else
        (match Execute(s, CreditRequest(s, w.transferId))
         case Failure(_) => Go(s, Raised)
         case Success(s') =>
           if p.checkUnderLock && !Admits(p, StatusOf(s, w.transferId)) then Go(s, Finished) else Go(s', Notifying))
    case _ => Go(s, if input.queued then Finished else Raised)
  }

  function WorkerStep(p: Policy, s: Store, w: Worker, input: Input): Effect {
    match w.phase
    case Ready =>
      (match w.task
       case DepositJob => DepositStep(p, s, w, input)
       case WithdrawalJob => WithdrawalStep(s, input)
       case WebhookJob(_) => WebhookStep(s, w))
    case Charging => DepositStep(p, s, w, input)
    case Checking => CompleteDepositStep(p, s, w, input)
    case Crediting => CompleteDepositStep(p, s, w, input)
    case Notifying => CompleteDepositStep(p, s, w, input)
    case Updating(target) => UpdateStep(p, s, w, target, input)
    case Raised => HookStep(p, s, w, input)
    case Finished => Go(s, Finished)
  }

  /** `onFailed`: retry until the attempts are used up. Only the payments queue then marks the transfer FAILED. */
  function HookStep(p: Policy, s: Store, w: Worker, input: Input): Effect {
    if w.attemptsMade + 1 < MaxAttempts(w.task) then Go(s, Ready)
    else if w.task.WebhookJob? || !input.stored then Go(s, Finished)
    else Go(WriteStatus(p, s, w.transferId, Failed), Finished)
  }

  /** A worker left alone until its handler returns or throws: n steps are enough when n >= 5. */
  function Uninterrupted(p: Policy, s: Store, w: Worker, input: Input, n: nat): (Store, Phase)
    decreases n
  {
    if n == 0 || w.phase == Raised || w.phase == Finished then (s, w.phase)
    else
      var effect := WorkerStep(p, s, w, input);
      Uninterrupted(p, effect.store, w.(phase := effect.phase), input, n - 1)
  }

  // ----- runs -----

  datatype Action =
    | Environment(event: Event)                                         // everything other than settlement
    | Enqueue(worker: WorkerId, transferId: TransferId)                 // the payment job of a new row
    | Deliver(worker: WorkerId, transferId: TransferId, report: Report) // a webhook, as often as the provider likes
    | Work(worker: WorkerId, input: Input)
    | Crash(worker: WorkerId)                                           // its process dies; the queue runs it again

  /** Settlement's own writes are Work steps; the rest of the system inserts rows and moves wallet money. */
  predicate IsEnvironment(s: Store, e: Event) {
    match e
    case StatusWritten(_, _) => false
    case Committed(r) => Inserts(r) && Admitted(s, r)
    case _ => true
  }

  predicate Enabled(st: State, a: Action) {
    match a
    case Environment(e) => IsEnvironment(st.store, e) && ApplyEvent(st.store, e).Success?
    case Enqueue(w, id) =>
      && w !in st.workers && id !in st.enqueued
      && id in st.store.transfers && st.store.transfers[id].kind != InternalTransfer
    case Deliver(w, _, _) => w !in st.workers
    case Work(w, _) => w in st.workers
    case Crash(w) =>
      w in st.workers && !st.workers[w].stalled && st.workers[w].phase != Ready && st.workers[w].phase != Finished
  }

  function JobFor(row: Transfer): Task {
    if row.kind == Deposit then DepositJob else WithdrawalJob
  }

  function Paid(st: State, id: TransferId): nat {
    if id in st.payouts then st.payouts[id] else 0
  }

  function Take(p: Policy, st: State, a: Action): State
    requires Enabled(st, a)
  {
    match a
    case Environment(e) => st.(store := ApplyEvent(st.store, e).value)
    case Enqueue(w, id) =>
      st.(workers := st.workers[w := Worker(JobFor(st.store.transfers[id]), id, 0, false, Ready)],
          enqueued := st.enqueued + {id})
    case Deliver(w, id, report) =>
      st.(workers := st.workers[w := Worker(WebhookJob(report), id, 0, false, Ready)])
    case Crash(w) => st.(workers := st.workers[w := st.workers[w].(phase := Ready, stalled := true)])
    case Work(w, input) =>
      var worker := st.workers[w];
      var effect := WorkerStep(p, st.store, worker, input);
      var made := if worker.phase == Raised then worker.attemptsMade + 1 else worker.attemptsMade;
      st.(store := effect.store,
          workers := st.workers[w := worker.(phase := effect.phase, attemptsMade := made)],
          payouts := if effect.paid then st.payouts[worker.transferId := Paid(st, worker.transferId) + 1]
            else st.payouts)
  }

  function Run(p: Policy, actions: seq<Action>): State {
    if actions == [] then IDLE
    else
      var st := Run(p, actions[..|actions| - 1]);
      var a := actions[|actions| - 1];
      if Enabled(st, a) then Take(p, st, a) else st
  }

  // ----- runs by what may go wrong in them -----

  /** Whether the database may refuse a worker's write, the queue a notification, the provider may pay what
      it called pending, and a worker's process may die. */
  datatype Faults = Faults(writesFail: bool, queueRefuses: bool, pendingPays: bool, workersCrash: bool)

  const NO_FAULTS := Faults(false, false, false, false)

  predicate PermitsInput(f: Faults, input: Input) {
    && ((input.marked && input.stored) || f.writesFail)
    && (input.queued || f.queueRefuses)
    && (input.paysLater ==> f.pendingPays)
  }

  predicate Permits(f: Faults, a: Action) {
    match a
    case Work(_, input) => PermitsInput(f, input)
    case Crash(_) => f.workersCrash
    case _ => true
  }

  predicate AllPermitted(f: Faults, actions: seq<Action>) {
    forall i :: 0 <= i < |actions| ==> Permits(f, actions[i])
  }

  ghost predicate Reachable(p: Policy, f: Faults, st: State) {
    exists actions :: AllPermitted(f, actions) && Run(p, actions) == st
  }

  lemma ReachNext(p: Policy, f: Faults, st: State, a: Action)
    requires Reachable(p, f, st) && Enabled(st, a) && Permits(f, a)
    ensures Reachable(p, f, Take(p, st, a))
  {
    var actions :| AllPermitted(f, actions) && Run(p, actions) == st;
    assert (actions + [a])[..|actions|] == actions;
    assert Run(p, actions + [a]) == Take(p, st, a);
  }
}
