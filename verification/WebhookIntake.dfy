/**
 Taking a provider's webhook in: look the event id up, save the event, queue its job, answer 200.
 The three statements are separate, so redeliveries of one event interleave; the id column is
 unique whoever the event is from, and the queue is not part of the save.
 */
module WebhookIntake {

  type EventId = nat
  type RequestId = nat

  datatype Provider = Flutterwave | Stripe

  /** What happened. Flutterwave's ids are those of the payment, so two events can come under one id. */
  datatype Event = Event(provider: Provider, payload: string)

  datatype Job = Job(event: Event, eventId: EventId)

  datatype Phase = Looking | Saving | Queueing | Acknowledged | Errored

  datatype Delivery = Delivery(event: Event, eventId: EventId, phase: Phase)

  /** `rows` is the table of events by their unique id. */
  datatype State = State(rows: map<EventId, Event>, jobs: seq<Job>, deliveries: map<RequestId, Delivery>)

  const QUIET := State(map[], [], map[])

  /** Whether the database refuses the insert for a reason of its own, and whether the queue is down. */
  datatype Input = Input(saveFails: bool, queueFails: bool)

  const SMOOTH := Input(false, false)

  datatype Effect = Effect(rows: map<EventId, Event>, jobs: seq<Job>, phase: Phase)

  /** Every failed insert is taken for a duplicate and acknowledged. */
  function Step(rows: map<EventId, Event>, jobs: seq<Job>, d: Delivery, input: Input): Effect {
    match d.phase
    case Looking => Effect(rows, jobs, if d.eventId in rows then Acknowledged else Saving)
    case Saving =>
      if d.eventId in rows || input.saveFails then Effect(rows, jobs, Acknowledged)
      else Effect(rows[d.eventId := d.event], jobs, Queueing)
    case Queueing =>
      if input.queueFails then Effect(rows, jobs, Errored)
      else Effect(rows, jobs + [Job(d.event, d.eventId)], Acknowledged)
    case _ => Effect(rows, jobs, d.phase)
  }

  // ----- runs, by what may go wrong in them -----

  datatype Faults = Faults(saveCanFail: bool, queueCanFail: bool, idsCollide: bool)

  const NO_FAULTS := Faults(false, false, false)

  datatype Action =
    | Deliver(request: RequestId, event: Event, eventId: EventId)
    | Go(request: RequestId, input: Input)

  predicate Enabled(f: Faults, st: State, a: Action) {
    match a
    case Deliver(r, event, id) =>
      && r !in st.deliveries
      && (f.idsCollide ||
          forall q :: q in st.deliveries && st.deliveries[q].eventId == id ==> st.deliveries[q].event == event)
    case Go(r, input) =>
      && r in st.deliveries
      && (input.saveFails ==> f.saveCanFail) && (input.queueFails ==> f.queueCanFail)
  }

  function Take(st: State, a: Action): State
    requires a.Go? ==> a.request in st.deliveries
  {
    match a
    case Deliver(r, event, id) => st.(deliveries := st.deliveries[r := Delivery(event, id, Looking)])
    case Go(r, input) =>
      var effect := Step(st.rows, st.jobs, st.deliveries[r], input);
      State(effect.rows, effect.jobs, st.deliveries[r := st.deliveries[r].(phase := effect.phase)])
  }

  function Continue(f: Faults, st: State, schedule: seq<Action>): State {
    if schedule == [] then st
    else
      var before := Continue(f, st, schedule[..|schedule| - 1]);
      var a := schedule[|schedule| - 1];
      if Enabled(f, before, a) then Take(before, a) else before
  }

  function Run(f: Faults, schedule: seq<Action>): State {
    Continue(f, QUIET, schedule)
  }

  // ----- an event is queued at most once -----

  predicate Queued(st: State, id: EventId) {
    exists i :: 0 <= i < |st.jobs| && st.jobs[i].eventId == id
  }

  predicate BeingQueued(st: State, id: EventId) {
    exists r :: r in st.deliveries && st.deliveries[r].eventId == id && st.deliveries[r].phase == Queueing
  }

  ghost predicate JobsFollowRows(st: State) {
    && (forall i :: 0 <= i < |st.jobs| ==>
          st.jobs[i].eventId in st.rows && st.rows[st.jobs[i].eventId] == st.jobs[i].event)
    && (forall i, j :: 0 <= i < j < |st.jobs| ==> st.jobs[i].eventId != st.jobs[j].eventId)
    && (forall r :: r in st.deliveries && st.deliveries[r].phase == Queueing ==> OnlySaver(st, r))
  }

  /** A delivery about to queue is the one that saved the event, and nobody queued it yet. */
  ghost predicate OnlySaver(st: State, r: RequestId)
    requires r in st.deliveries
  {
    var d := st.deliveries[r];
    && d.eventId in st.rows && st.rows[d.eventId] == d.event && !Queued(st, d.eventId)
    && forall q :: q in st.deliveries && q != r && st.deliveries[q].eventId == d.eventId ==>
          st.deliveries[q].phase != Queueing
  }

  lemma TakeKeepsJobs(f: Faults, st: State, a: Action)
    requires JobsFollowRows(st) && Enabled(f, st, a)
    ensures JobsFollowRows(Take(st, a))
  {
    var st' := Take(st, a);
    forall r | r in st'.deliveries && st'.deliveries[r].phase == Queueing ensures OnlySaver(st', r) {
      if r in st.deliveries && st.deliveries[r].phase == Queueing { assert OnlySaver(st, r); }
    }
    if a.Go? && st.deliveries[a.request].phase == Queueing {
      assert OnlySaver(st, a.request);
    }
  }

  lemma {:induction false} RunKeepsJobs(f: Faults, schedule: seq<Action>)
    ensures JobsFollowRows(Run(f, schedule))
  {
    if schedule != [] {
      RunKeepsJobs(f, schedule[..|schedule| - 1]);
      var st := Run(f, schedule[..|schedule| - 1]);
      if Enabled(f, st, schedule[|schedule| - 1]) {
        TakeKeepsJobs(f, st, schedule[|schedule| - 1]);
      }
    }
  }

  /** Whatever the provider redelivers and whatever fails, an event id is queued at most once, for the
      event whose delivery saved it. */
  lemma OneJobPerEvent(f: Faults, schedule: seq<Action>, i: nat, j: nat)
    requires i < |Run(f, schedule).jobs| && j < |Run(f, schedule).jobs|
    ensures var st := Run(f, schedule);
      && (st.jobs[i].eventId == st.jobs[j].eventId ==> i == j)
      && st.jobs[i].eventId in st.rows && st.rows[st.jobs[i].eventId] == st.jobs[i].event
  {
    RunKeepsJobs(f, schedule);
  }

  // ----- what is lost stays lost -----

  /** The event is saved, but its job is not queued and nobody is about to queue it. */
  predicate Stranded(st: State, id: EventId) {
    id in st.rows && !Queued(st, id) && !BeingQueued(st, id)
  }

  /** No number of redeliveries ever queues a stranded event. */
  lemma {:induction false} StrandedForGood(f: Faults, st: State, id: EventId, schedule: seq<Action>)
    requires Stranded(st, id)
    ensures Stranded(Continue(f, st, schedule), id)
  {
    if schedule != [] {
      StrandedForGood(f, st, id, schedule[..|schedule| - 1]);
    }
  }

  // ----- exactly when every acknowledged event is queued -----

  /** The delivery's own event is queued, or its saver is about to queue it. */
  predicate Handled(st: State, event: Event, id: EventId) {
    id in st.rows && st.rows[id] == event && (Queued(st, id) || BeingQueued(st, id))
  }

  ghost predicate NothingLost(st: State) {
    forall r :: r in st.deliveries && st.deliveries[r].phase == Acknowledged
      ==> Handled(st, st.deliveries[r].event, st.deliveries[r].eventId)
  }

  ghost predicate NeverLoses(f: Faults) {
    forall schedule :: NothingLost(Run(f, schedule))
  }

  ghost predicate OneEvent(deliveries: map<RequestId, Delivery>) {
    forall r, q :: r in deliveries && q in deliveries && deliveries[r].eventId == deliveries[q].eventId
      ==> deliveries[r].event == deliveries[q].event
  }

  lemma OneEventStep(st: State, a: Action)
    requires OneEvent(st.deliveries) && Enabled(NO_FAULTS, st, a)
    ensures OneEvent(Take(st, a).deliveries)
  {
  }

  /** A saved event has a delivery and is handled. */
  ghost predicate GoodRow(st: State, id: EventId)
    requires id in st.rows
  {
    Handled(st, st.rows[id], id) && exists r :: r in st.deliveries && st.deliveries[r].eventId == id
  }

  ghost predicate GoodDelivery(st: State, r: RequestId)
    requires r in st.deliveries
  {
    var d := st.deliveries[r];
    && (d.eventId in st.rows ==> st.rows[d.eventId] == d.event)
    && (d.phase == Acknowledged || d.phase == Queueing ==> d.eventId in st.rows)
  }

  ghost predicate Smooth(st: State) {
    && OneEvent(st.deliveries)
    && (forall id :: id in st.rows ==> GoodRow(st, id))
    && (forall r :: r in st.deliveries ==> GoodDelivery(st, r))
  }

  lemma HandledStays(st: State, a: Action, id: EventId)
    requires Enabled(NO_FAULTS, st, a) && id in st.rows && Handled(st, st.rows[id], id)
    ensures var st' := Take(st, a); id in st'.rows && st'.rows[id] == st.rows[id] && Handled(st', st'.rows[id], id)
  {
    var st' := Take(st, a);
    if Queued(st, id) {
      var i :| 0 <= i < |st.jobs| && st.jobs[i].eventId == id;
      assert st'.jobs[i].eventId == id;
    } else {
      var r :| r in st.deliveries && st.deliveries[r].eventId == id && st.deliveries[r].phase == Queueing;
      if a.Go? && a.request == r {
        assert st'.jobs[|st.jobs|].eventId == id;
      } else {
        assert st'.deliveries[r] == st.deliveries[r];
      }
    }
  }

  lemma GoodRowAfter(st: State, a: Action, id: EventId)
    requires Smooth(st) && Enabled(NO_FAULTS, st, a) && id in Take(st, a).rows
    ensures GoodRow(Take(st, a), id)
  {
    var st' := Take(st, a);
    if id in st.rows {
      assert GoodRow(st, id);
      HandledStays(st, a, id);
      var r :| r in st.deliveries && st.deliveries[r].eventId == id;
      assert st'.deliveries[r].eventId == id;
    } else {
      assert st'.deliveries[a.request].eventId == id && st'.deliveries[a.request].phase == Queueing;
    }
  }

  lemma GoodDeliveryAfter(st: State, a: Action, r: RequestId)
    requires Smooth(st) && Enabled(NO_FAULTS, st, a) && r in Take(st, a).deliveries
    ensures GoodDelivery(Take(st, a), r)
  {
    if r in st.deliveries {
      assert GoodDelivery(st, r);
    } else if a.eventId in st.rows {
      assert GoodRow(st, a.eventId);
      var q :| q in st.deliveries && st.deliveries[q].eventId == a.eventId;
      assert GoodDelivery(st, q);
    }
  }

  lemma SmoothStep(st: State, a: Action)
    requires Smooth(st) && Enabled(NO_FAULTS, st, a)
    ensures Smooth(Take(st, a))
  {
    OneEventStep(st, a);
    forall id | id in Take(st, a).rows ensures GoodRow(Take(st, a), id) { GoodRowAfter(st, a, id); }
    forall r | r in Take(st, a).deliveries ensures GoodDelivery(Take(st, a), r) { GoodDeliveryAfter(st, a, r); }
  }

  lemma SmoothLosesNothing(st: State)
    requires Smooth(st)
    ensures NothingLost(st)
  {
    forall r | r in st.deliveries && st.deliveries[r].phase == Acknowledged
      ensures Handled(st, st.deliveries[r].event, st.deliveries[r].eventId)
    {
      assert GoodDelivery(st, r);
      assert GoodRow(st, st.deliveries[r].eventId);
    }
  }

  lemma {:induction false} FaultlessRunIsSmooth(schedule: seq<Action>)
    ensures Smooth(Run(NO_FAULTS, schedule))
  {
    if schedule != [] {
      FaultlessRunIsSmooth(schedule[..|schedule| - 1]);
      var st := Run(NO_FAULTS, schedule[..|schedule| - 1]);
      if Enabled(NO_FAULTS, st, schedule[|schedule| - 1]) {
        SmoothStep(st, schedule[|schedule| - 1]);
      }
    }
  }

  lemma Then(f: Faults, schedule: seq<Action>, a: Action)
    requires Enabled(f, Run(f, schedule), a)
    ensures Run(f, schedule + [a]) == Take(Run(f, schedule), a)
  {
    assert (schedule + [a])[..|schedule|] == schedule;
  }

  const PAID := Event(Flutterwave, "successful")
  const REFUNDED := Event(Flutterwave, "refunded")

  /** Takes request r, just delivered for event 0, through its look-up: nothing saved so far. */
  lemma LookedUp(f: Faults) returns (schedule: seq<Action>)
    ensures Run(f, schedule) == State(map[], [], map[0 := Delivery(PAID, 0, Saving)])
  {
    assert Run(f, []) == QUIET;
    Then(f, [], Deliver(0, PAID, 0));
    var delivered := [] + [Deliver(0, PAID, 0)];
    assert Run(f, delivered) == State(map[], [], map[0 := Delivery(PAID, 0, Looking)]);
    Then(f, delivered, Go(0, SMOOTH));
    schedule := delivered + [Go(0, SMOOTH)];
  }

  lemma Saved(f: Faults) returns (schedule: seq<Action>)
    ensures Run(f, schedule) == State(map[0 := PAID], [], map[0 := Delivery(PAID, 0, Queueing)])
  {
    var before := LookedUp(f);
    Then(f, before, Go(0, SMOOTH));
    schedule := before + [Go(0, SMOOTH)];
  }

  /** A second delivery of event 0 finds the row and is acknowledged. */
  lemma SecondAcknowledged(f: Faults, before: seq<Action>, event: Event) returns (schedule: seq<Action>)
    requires 0 in Run(f, before).rows && Enabled(f, Run(f, before), Deliver(1, event, 0))
    ensures var st, st' := Run(f, before), Run(f, schedule);
      st'.rows == st.rows && st'.jobs == st.jobs
        && st'.deliveries == st.deliveries[1 := Delivery(event, 0, Acknowledged)]
  {
    Then(f, before, Deliver(1, event, 0));
    var delivered := before + [Deliver(1, event, 0)];
    Then(f, delivered, Go(1, SMOOTH));
    schedule := delivered + [Go(1, SMOOTH)];
  }

  lemma Loses(f: Faults, schedule: seq<Action>, r: RequestId)
    requires var st := Run(f, schedule);
      r in st.deliveries && st.deliveries[r].phase == Acknowledged
      && !Handled(st, st.deliveries[r].event, st.deliveries[r].eventId)
    ensures !NeverLoses(f)
  {
    assert !NothingLost(Run(f, schedule));
  }

  /** A provider that was answered 200 can rely on its event being processed exactly when inserts fail
      only as duplicates, the queue never refuses a saved event, and no two different events, of one provider or of
      two, come under one id. */
  lemma NeverLosesIff(f: Faults)
    ensures NeverLoses(f) <==> !f.saveCanFail && !f.queueCanFail && !f.idsCollide
  {
    if f == NO_FAULTS {
      forall schedule ensures NothingLost(Run(f, schedule)) {
        FaultlessRunIsSmooth(schedule);
        SmoothLosesNothing(Run(f, schedule));
      }
    } else if f.saveCanFail {
      var before := LookedUp(f);
      Then(f, before, Go(0, Input(true, false)));
      Loses(f, before + [Go(0, Input(true, false))], 0);
    } else if f.queueCanFail {
      var saved := Saved(f);
      Then(f, saved, Go(0, Input(false, true)));
      var schedule := SecondAcknowledged(f, saved + [Go(0, Input(false, true))], PAID);
      Loses(f, schedule, 1);
    } else {
      var saved := Saved(f);
      var schedule := SecondAcknowledged(f, saved, REFUNDED);
      Loses(f, schedule, 1);
    }
  }

  // ----- the controller -----

  /** A delivery's next n statements, with nobody in between. */
  function Uninterrupted(rows: map<EventId, Event>, jobs: seq<Job>, d: Delivery, input: Input, n: nat): Effect
    decreases n
  {
    if n == 0 then Effect(rows, jobs, d.phase)
    else
      var effect := Step(rows, jobs, d, input);
      Uninterrupted(effect.rows, effect.jobs, d.(phase := effect.phase), input, n - 1)
  }

  lemma OneStep(rows: map<EventId, Event>, jobs: seq<Job>, d: Delivery, input: Input, n: nat)
    requires n > 0
    ensures var effect := Step(rows, jobs, d, input);
      Uninterrupted(rows, jobs, d, input, n)
        == Uninterrupted(effect.rows, effect.jobs, d.(phase := effect.phase), input, n - 1)
  {
  }

  class WebhooksController {
    var rows: map<EventId, Event>
    var jobs: seq<Job>

    constructor ()
      ensures rows == map[] && jobs == []
    {
      rows, jobs := map[], [];
    }

    /** One delivery left alone: a new event is saved and queued, a known one is only acknowledged.
        That is its three statements one after the other. */
    method ProcessWebhookEvent(event: Event, eventId: EventId, input: Input) returns (outcome: Phase)
      modifies this
      ensures Effect(rows, jobs, outcome)
        == Uninterrupted(old(rows), old(jobs), Delivery(event, eventId, Looking), input, 3)
      ensures var saved, queued := eventId !in old(rows) && !input.saveFails,
                                   eventId !in old(rows) && !input.saveFails && !input.queueFails;
        && rows == (if saved then old(rows)[eventId := event] else old(rows))
        && jobs == (if queued then old(jobs) + [Job(event, eventId)] else old(jobs))
        && outcome == if saved && !queued then Errored else Acknowledged
    {
      ghost var looking := Delivery(event, eventId, Looking);
      OneStep(rows, jobs, looking, input, 3);
      OneStep(rows, jobs, looking.(phase := Saving), input, 2);
      if eventId in rows { return Acknowledged; }
      if input.saveFails { return Acknowledged; }
      rows := rows[eventId := event];
      if input.queueFails { return Errored; }
      jobs := jobs + [Job(event, eventId)];
      outcome := Acknowledged;
    }
  }
}
