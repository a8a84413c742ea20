/**
 The idempotency interceptor: look the key up, insert an in-flight record under a unique index,
 run the handler, store its outcome. Requests interleave between these steps; a process may die
 between any two; a nightly job deletes completed records older than 25 hours.
 */
module Idempotency {
  import opened Wrappers

  type RequestId = nat

  const RETENTION: nat := 25 * 3600_000
  const MIN_KEY_LENGTH := 16

  /** The unique column: user id and client key. The endpoint is not part of it. */
  datatype Key = Key(userId: nat, clientKey: string)

  datatype Response = Response(status: nat, body: string)

  datatype Outcome = Returned(response: Response) | Threw(response: Response)

  datatype RecordStatus = InFlight | CompletedRecord | FailedRecord

  datatype Record = Record(endpoint: string, status: RecordStatus, createdAt: nat, response: Option<Response>)

  datatype Answer = BadRequest | Conflict | Replayed(response: Response) | Fresh(outcome: Outcome)

  datatype Phase =
    | LookingUp
    | Inserting
    | Executing
    | Storing(outcome: Outcome)
    | Answered(answer: Answer)

  datatype Request = Request(key: Key, endpoint: string, phase: Phase)

  /** One run of the wrapped handler, under the record created at `createdAt`. */
  datatype Execution = Execution(key: Key, endpoint: string, createdAt: nat, outcome: Outcome)

  datatype State = State(
    records: map<Key, Record>, requests: map<RequestId, Request>, executions: seq<Execution>, now: nat)

  const FRESH := State(map[], map[], [], 0)

  datatype Action =
    | Arrive(id: RequestId, key: Key, endpoint: string)
    | Step(id: RequestId, outcome: Outcome)
    | Crash(id: RequestId)
    | Tick(elapsed: nat)
    | Cleanup

  function Lookup(records: map<Key, Record>, r: Request): Phase {
    if |r.key.clientKey| < MIN_KEY_LENGTH then Answered(BadRequest)
    else if r.key in records && records[r.key].endpoint == r.endpoint then
      var existing := records[r.key];
      if existing.status == InFlight then Answered(Conflict)
      else match existing.response
        case Some(response) => Answered(Replayed(response))
        case None => Answered(Conflict)
    else Inserting
  }

  function Finished(record: Record, outcome: Outcome): Record {
    record.(status := if outcome.Returned? then CompletedRecord else FailedRecord, response := Some(outcome.response))
  }

  function Stepped(s: State, id: RequestId, outcome: Outcome): State
    requires id in s.requests
  {
    var r := s.requests[id];
    match r.phase
    case LookingUp => s.(requests := s.requests[id := r.(phase := Lookup(s.records, r))])
    case Inserting =>
      if r.key in s.records then s.(requests := s.requests[id := r.(phase := Answered(Conflict))])
      else s.(records := s.records[r.key := Record(r.endpoint, InFlight, s.now, None)],
              requests := s.requests[id := r.(phase := Executing)])
    case Executing =>
      var createdAt := if r.key in s.records then s.records[r.key].createdAt else s.now;
      s.(executions := s.executions + [Execution(r.key, r.endpoint, createdAt, outcome)],
         requests := s.requests[id := r.(phase := Storing(outcome))])
    case Storing(stored) =>
      s.(records := if r.key in s.records && s.records[r.key].endpoint == r.endpoint
                    then s.records[r.key := Finished(s.records[r.key], stored)] else s.records,
         requests := s.requests[id := r.(phase := Answered(Fresh(stored)))])
    case Answered(_) => s
  }

  predicate Expired(record: Record, now: nat) {
    record.status == CompletedRecord && record.createdAt + RETENTION < now
  }

  function Swept(records: map<Key, Record>, now: nat): map<Key, Record> {
    map k | k in records && !Expired(records[k], now) :: records[k]
  }

  predicate Enabled(s: State, a: Action) {
    match a
    case Arrive(id, _, _) => id !in s.requests
    case Step(id, _) => id in s.requests
    case Crash(id) => id in s.requests
    case Tick(_) => true
    case Cleanup => true
  }

  function Take(s: State, a: Action): State
    requires Enabled(s, a)
  {
    match a
    case Arrive(id, key, endpoint) => s.(requests := s.requests[id := Request(key, endpoint, LookingUp)])
    case Step(id, outcome) => Stepped(s, id, outcome)
    case Crash(id) => s.(requests := s.requests - {id})
    case Tick(elapsed) => s.(now := s.now + elapsed)
    case Cleanup => s.(records := Swept(s.records, s.now))
  }

  function RunFrom(s: State, actions: seq<Action>): State {
    if actions == [] then s
    else
      var before := RunFrom(s, actions[..|actions| - 1]);
      var a := actions[|actions| - 1];
      if Enabled(before, a) then Take(before, a) else before
  }

  function Run(actions: seq<Action>): State {
    RunFrom(FRESH, actions)
  }

  // ----- the protocol's invariant -----

  predicate Owns(r: Request) {
    r.phase == Executing || r.phase.Storing?
  }

  ghost predicate OwnerHasRecord(s: State, id: RequestId)
    requires id in s.requests
  {
    var r := s.requests[id];
    Owns(r) ==>
      && r.key in s.records && s.records[r.key].status == InFlight && s.records[r.key].endpoint == r.endpoint
      && (r.phase == Executing ==> Unexecuted(s, r.key))
      && (r.phase.Storing? ==> Ran(s, r.key, r.endpoint, s.records[r.key].createdAt, r.phase.outcome))
  }

  /** The key's current record has not led to an execution yet. */
  ghost predicate Unexecuted(s: State, key: Key)
    requires key in s.records
  {
    forall i :: 0 <= i < |s.executions| && s.executions[i].key == key ==>
      s.executions[i].createdAt != s.records[key].createdAt
  }

  ghost predicate Ran(s: State, key: Key, endpoint: string, createdAt: nat, outcome: Outcome) {
    Execution(key, endpoint, createdAt, outcome) in s.executions
  }

  ghost predicate OneOwner(s: State) {
    forall id, id' ::
      id in s.requests && id' in s.requests && id != id' && Owns(s.requests[id]) && Owns(s.requests[id'])
      ==> s.requests[id].key != s.requests[id'].key
  }

  /** A record of the key created at this time is its current one, or more than 25 hours older. */
  predicate CurrentOrOld(s: State, key: Key, createdAt: nat) {
    if key in s.records
    then s.records[key].createdAt == createdAt || s.records[key].createdAt > createdAt + RETENTION
    else s.now > createdAt + RETENTION
  }

  ghost predicate Placed(s: State, e: Execution) {
    CurrentOrOld(s, e.key, e.createdAt)
  }

  ghost predicate RecordHonest(s: State, key: Key)
    requires key in s.records
  {
    var record := s.records[key];
    && record.createdAt <= s.now
    && (record.status != InFlight ==>
          && record.response.Some?
          && Ran(s, key, record.endpoint, record.createdAt,
                 if record.status == CompletedRecord then Returned(record.response.value)
                   else Threw(record.response.value)))
  }

  ghost predicate Spaced(s: State) {
    forall i, j :: 0 <= i < j < |s.executions| && s.executions[i].key == s.executions[j].key
      ==> s.executions[j].createdAt > s.executions[i].createdAt + RETENTION
  }

  /** Some execution of this key on this endpoint produced the response. */
  ghost predicate Produced(s: State, key: Key, endpoint: string, response: Response) {
    exists e :: e in s.executions && e.key == key && e.endpoint == endpoint && e.outcome.response == response
  }

  ghost predicate ReplayHonest(s: State, r: Request) {
    r.phase.Answered? && r.phase.answer.Replayed? ==> Produced(s, r.key, r.endpoint, r.phase.answer.response)
  }

  ghost predicate Inv(s: State) {
    && (forall id :: id in s.requests ==> OwnerHasRecord(s, id) && ReplayHonest(s, s.requests[id]))
    && OneOwner(s)
    && (forall e :: e in s.executions ==> Placed(s, e))
    && (forall k :: k in s.records ==> RecordHonest(s, k))
    && Spaced(s)
  }

  lemma {:induction false} RunInv(actions: seq<Action>)
    ensures Inv(Run(actions))
  {
    if actions != [] {
      var before := actions[..|actions| - 1];
      RunInv(before);
      if Enabled(Run(before), actions[|actions| - 1]) {
        TakeInv(Run(before), actions[|actions| - 1]);
      }
    }
  }

  lemma TakeInv(s: State, a: Action)
    requires Inv(s) && Enabled(s, a)
    ensures Inv(Take(s, a))
  {
    match a
    case Arrive(id, _, _) => QuietInv(s, Take(s, a));
    case Step(id, outcome) =>
      match s.requests[id].phase {
        case LookingUp => LookupInv(s, id, outcome);
        case Inserting => InsertInv(s, id, outcome);
        case Executing => ExecuteInv(s, id, outcome);
        case Storing(_) => StoreInv(s, id, outcome);
        case Answered(_) =>
      }
    case Crash(id) => QuietInv(s, Take(s, a));
    case Tick(_) => QuietInv(s, Take(s, a));
    case Cleanup => CleanupInv(s);
  }

  /** Requests come and go before or after owning a record, and time passes. */
  lemma QuietInv(s: State, s': State)
    requires Inv(s) && s'.records == s.records && s'.executions == s.executions && s'.now >= s.now
    requires forall id :: id in s'.requests ==>
      (id in s.requests && s'.requests[id] == s.requests[id])
        || (!Owns(s'.requests[id]) && ReplayHonest(s, s'.requests[id]))
    ensures Inv(s')
  {
    forall id | id in s'.requests ensures OwnerHasRecord(s', id) && ReplayHonest(s', s'.requests[id]) {
      if id in s.requests { assert OwnerHasRecord(s, id) && ReplayHonest(s, s.requests[id]); }
    }
    forall e | e in s'.executions ensures Placed(s', e) { assert Placed(s, e); }
    forall k | k in s'.records ensures RecordHonest(s', k) { assert RecordHonest(s, k); }
  }

  lemma LookupInv(s: State, id: RequestId, outcome: Outcome)
    requires Inv(s) && id in s.requests && s.requests[id].phase == LookingUp
    ensures Inv(Stepped(s, id, outcome))
  {
    var r := s.requests[id];
    var r' := r.(phase := Lookup(s.records, r));
    if r.key in s.records { assert RecordHonest(s, r.key); }
    assert ReplayHonest(s, r');
    QuietInv(s, Stepped(s, id, outcome));
  }

  lemma InsertInv(s: State, id: RequestId, outcome: Outcome)
    requires Inv(s) && id in s.requests && s.requests[id].phase == Inserting
    ensures Inv(Stepped(s, id, outcome))
  {
    var r := s.requests[id];
    var s' := Stepped(s, id, outcome);
    if r.key in s.records {
      QuietInv(s, s');
    } else {
      forall e | e in s'.executions ensures Placed(s', e) { assert Placed(s, e); }
      assert Unexecuted(s', r.key) by {
        forall i | 0 <= i < |s.executions| && s.executions[i].key == r.key ensures s.executions[i].createdAt != s.now {
          assert Placed(s, s.executions[i]);
        }
      }
      forall k | k in s'.records ensures RecordHonest(s', k) {
        if k != r.key { assert RecordHonest(s, k); }
      }
      forall i | i in s'.requests ensures OwnerHasRecord(s', i) && ReplayHonest(s', s'.requests[i]) {
        if i != id { assert OwnerHasRecord(s, i) && ReplayHonest(s, s.requests[i]); }
      }
      assert OneOwner(s') by {
        forall i | i in s.requests && Owns(s.requests[i])
          ensures s.requests[i].key != r.key
        {
          assert OwnerHasRecord(s, i);
        }
      }
    }
  }

  lemma ExecuteInv(s: State, id: RequestId, outcome: Outcome)
    requires Inv(s) && id in s.requests && s.requests[id].phase == Executing
    ensures Inv(Stepped(s, id, outcome))
  {
    var r := s.requests[id];
    var s' := Stepped(s, id, outcome);
    assert OwnerHasRecord(s, id);
    var e := Execution(r.key, r.endpoint, s.records[r.key].createdAt, outcome);
    assert s'.executions == s.executions + [e];
    forall x | x in s'.executions ensures Placed(s', x) {
      if x in s.executions { assert Placed(s, x); }
    }
    forall i | 0 <= i < |s.executions| && s.executions[i].key == r.key
      ensures e.createdAt > s.executions[i].createdAt + RETENTION
    {
      assert Placed(s, s.executions[i]);
    }
    assert Spaced(s');
    forall k | k in s'.records ensures RecordHonest(s', k) { assert RecordHonest(s, k); }
    forall i | i in s'.requests ensures OwnerHasRecord(s', i) && ReplayHonest(s', s'.requests[i]) {
      assert OwnerHasRecord(s, i) && ReplayHonest(s, s.requests[i]);
      ReplayStays(s, s', s'.requests[i]);
    }
    assert OneOwner(s');
  }

  lemma ReplayStays(s: State, s': State, r: Request)
    requires s.executions <= s'.executions && ReplayHonest(s, r)
    ensures ReplayHonest(s', r)
  {
    if r.phase.Answered? && r.phase.answer.Replayed? {
      var e :| e in s.executions && e.key == r.key && e.endpoint == r.endpoint
        && e.outcome.response == r.phase.answer.response;
      assert e in s'.executions;
    }
  }

  lemma StoreInv(s: State, id: RequestId, outcome: Outcome)
    requires Inv(s) && id in s.requests && s.requests[id].phase.Storing?
    ensures Inv(Stepped(s, id, outcome))
  {
    var r := s.requests[id];
    var s' := Stepped(s, id, outcome);
    assert OwnerHasRecord(s, id);
    forall e | e in s'.executions ensures Placed(s', e) { assert Placed(s, e); }
    forall k | k in s'.records ensures RecordHonest(s', k) { assert RecordHonest(s, k); }
    forall i | i in s'.requests ensures OwnerHasRecord(s', i) && ReplayHonest(s', s'.requests[i]) {
      assert OwnerHasRecord(s, i) && ReplayHonest(s, s.requests[i]);
    }
    assert OneOwner(s');
  }

  lemma CleanupInv(s: State)
    requires Inv(s)
    ensures Inv(s.(records := Swept(s.records, s.now)))
  {
    var s' := s.(records := Swept(s.records, s.now));
    forall e | e in s'.executions ensures Placed(s', e) {
      assert Placed(s, e);
      if e.key in s.records { assert RecordHonest(s, e.key); }
    }
    forall k | k in s'.records ensures RecordHonest(s', k) { assert RecordHonest(s, k); }
    forall i | i in s'.requests ensures OwnerHasRecord(s', i) && ReplayHonest(s', s'.requests[i]) {
      assert OwnerHasRecord(s, i) && ReplayHonest(s, s.requests[i]);
    }
  }

  lemma StaysCurrentOrOld(s: State, a: Action, key: Key, createdAt: nat)
    requires Inv(s) && Enabled(s, a) && CurrentOrOld(s, key, createdAt)
    ensures CurrentOrOld(Take(s, a), key, createdAt)
  {
    if key in s.records { assert RecordHonest(s, key); }
  }

  // ----- the theorems -----

  /** Two executions under one key, over any interleaving, stem from records created more than 25 hours
      apart: a key executes once, and no repeat within 24 hours of the first request executes again. */
  lemma ExecutesOncePerDay(actions: seq<Action>, i: nat, j: nat)
    requires i < j < |Run(actions).executions| && Run(actions).executions[i].key == Run(actions).executions[j].key
    ensures Run(actions).executions[j].createdAt - Run(actions).executions[i].createdAt > 25 * 3600_000
  {
    RunInv(actions);
  }

  /** While the record exists, its key has executed at most once under it. */
  lemma OncePerRecord(actions: seq<Action>, key: Key, i: nat, j: nat)
    requires key in Run(actions).records && i < j < |Run(actions).executions|
    requires Run(actions).executions[i].key == key && Run(actions).executions[j].key == key
    ensures Run(actions).executions[i].createdAt < Run(actions).records[key].createdAt
  {
    RunInv(actions);
    var s := Run(actions);
    assert Placed(s, s.executions[j]);
  }

  /** A replayed answer is the response an execution of the same key and endpoint produced. */
  lemma ReplaysAreExact(actions: seq<Action>, id: RequestId, response: Response)
    requires id in Run(actions).requests && Run(actions).requests[id].phase == Answered(Replayed(response))
    ensures var s := Run(actions); Produced(s, s.requests[id].key, s.requests[id].endpoint, response)
  {
    RunInv(actions);
    assert ReplayHonest(Run(actions), Run(actions).requests[id]);
  }

  /** A key whose record cannot be deleted and has no running owner never executes again. */
  ghost predicate Sealed(s: State, key: Key) {
    && key in s.records && s.records[key].status != CompletedRecord
    && forall id :: id in s.requests && Owns(s.requests[id]) ==> s.requests[id].key != key
  }

  function ExecutionsOf(executions: seq<Execution>, key: Key): nat {
    if executions == [] then 0
    else ExecutionsOf(executions[..|executions| - 1], key) + if executions[|executions| - 1].key == key then 1 else 0
  }

  lemma SealedTake(s: State, a: Action, key: Key)
    requires Sealed(s, key) && Enabled(s, a)
    ensures Sealed(Take(s, a), key) && Take(s, a).records[key] == s.records[key]
    ensures ExecutionsOf(Take(s, a).executions, key) == ExecutionsOf(s.executions, key)
  {
    if a.Step? && s.requests[a.id].phase == Executing {
      var s' := Take(s, a);
      assert s'.executions[..|s.executions|] == s.executions;
    }
  }

  lemma {:induction false} SealedForever(s: State, key: Key, later: seq<Action>)
    requires Sealed(s, key)
    ensures Sealed(RunFrom(s, later), key) && RunFrom(s, later).records[key] == s.records[key]
    ensures ExecutionsOf(RunFrom(s, later).executions, key) == ExecutionsOf(s.executions, key)
  {
    if later != [] {
      var before := later[..|later| - 1];
      SealedForever(s, key, before);
      if Enabled(RunFrom(s, before), later[|later| - 1]) {
        SealedTake(RunFrom(s, before), later[|later| - 1], key);
      }
    }
  }

  /** As written, a failed request is not retried under its key, ever: the stored error is replayed and
      no cleanup removes it, despite the code's comment that the client can retry. */
  lemma FailedKeysNeverRunAgain(actions: seq<Action>, key: Key, later: seq<Action>)
    requires key in Run(actions).records && Run(actions).records[key].status == FailedRecord
    ensures var s := RunFrom(Run(actions), later);
      && key in s.records && s.records[key] == Run(actions).records[key]
      && ExecutionsOf(s.executions, key) == ExecutionsOf(Run(actions).executions, key)
  {
    RunInv(actions);
    var s := Run(actions);
    forall id | id in s.requests && Owns(s.requests[id])
      ensures s.requests[id].key != key
    {
      assert OwnerHasRecord(s, id);
    }
    SealedForever(s, key, later);
  }

  /** A process that dies between insert and update leaves its key in flight for ever: every later request
      with the key is refused and none executes. */
  lemma CrashedKeysStayInFlight(actions: seq<Action>, id: RequestId, later: seq<Action>)
    requires id in Run(actions).requests && Owns(Run(actions).requests[id])
    ensures var crashed := Take(Run(actions), Crash(id)); var key := Run(actions).requests[id].key;
      var s := RunFrom(crashed, later);
      && key in s.records && s.records[key].status == InFlight
      && ExecutionsOf(s.executions, key) == ExecutionsOf(crashed.executions, key)
  {
    RunInv(actions);
    assert OwnerHasRecord(Run(actions), id);
    SealedForever(Take(Run(actions), Crash(id)), Run(actions).requests[id].key, later);
  }

  /** A request whose steps nothing interrupts. */
  function Alone(s: State, id: RequestId, outcome: Outcome): State
    requires id in s.requests
  {
    Stepped(Stepped(Stepped(Stepped(s, id, outcome), id, outcome), id, outcome), id, outcome)
  }

  /** What one request alone answers, by its key's length and the record it finds: a finished record of its own
      endpoint is replayed, any other record is a conflict, and without any record the handler runs and its
      outcome is stored. */
  lemma SoloRequest(s: State, id: RequestId, outcome: Outcome)
    requires Inv(s) && id in s.requests && s.requests[id].phase == LookingUp
    ensures var r := s.requests[id]; var s' := Alone(s, id, outcome);
      if |r.key.clientKey| < 16 then
        s'.requests[id].phase == Answered(BadRequest) && s'.records == s.records && s'.executions == s.executions
      else if r.key !in s.records then
        && s'.requests[id].phase == Answered(Fresh(outcome))
        && s'.executions == s.executions + [Execution(r.key, r.endpoint, s.now, outcome)]
        && s'.records == s.records[r.key := Record(
             r.endpoint, if outcome.Returned? then CompletedRecord else FailedRecord, s.now, Some(outcome.response))]
      else
        var record := s.records[r.key];
        && s'.records == s.records && s'.executions == s.executions
        && if record.endpoint == r.endpoint && record.status != InFlight
           then record.response.Some? && s'.requests[id].phase == Answered(Replayed(record.response.value))
           else s'.requests[id].phase == Answered(Conflict)
  {
    var r := s.requests[id];
    if r.key in s.records { assert RecordHonest(s, r.key); }
  }

  // ----- repeats get the first answer -----

  /** The key has this finished record, and nobody who could still write it. */
  ghost predicate Settled(s: State, key: Key, record: Record) {
    && key in s.records && s.records[key] == record && record.status != InFlight
    && forall id :: id in s.requests && Owns(s.requests[id]) ==> s.requests[id].key != key
  }

  lemma SettledTake(s: State, a: Action, key: Key, record: Record)
    requires Settled(s, key, record) && Enabled(s, a) && key in Take(s, a).records
    ensures Settled(Take(s, a), key, record)
  {
  }

  ghost predicate NeverSwept(s: State, later: seq<Action>, key: Key) {
    forall k :: 0 <= k <= |later| ==> key in RunFrom(s, later[..k]).records
  }

  lemma {:induction false} SettledUntilSwept(s: State, later: seq<Action>, key: Key, record: Record)
    requires Settled(s, key, record) && NeverSwept(s, later, key)
    ensures Settled(RunFrom(s, later), key, record)
  {
    if later != [] {
      var before, a := later[..|later| - 1], later[|later| - 1];
      forall k | 0 <= k <= |before| ensures key in RunFrom(s, before[..k]).records {
        assert before[..k] == later[..k];
      }
      SettledUntilSwept(s, before, key, record);
      assert later[..|later|] == later;
      if Enabled(RunFrom(s, before), a) { SettledTake(RunFrom(s, before), a, key, record); }
    }
  }

  lemma {:induction false} TimePasses(s: State, later: seq<Action>)
    ensures s.now <= RunFrom(s, later).now
  {
    if later != [] { TimePasses(s, later[..|later| - 1]); }
  }

  /** A record that failed, or is no older than 25 hours, is not swept. */
  lemma {:induction false} NotSweptYet(s: State, later: seq<Action>, key: Key, record: Record)
    requires Settled(s, key, record)
    requires record.status == FailedRecord || RunFrom(s, later).now <= record.createdAt + 25 * 3600_000
    ensures NeverSwept(s, later, key)
    ensures Settled(RunFrom(s, later), key, record)
  {
    if later != [] {
      var before, a := later[..|later| - 1], later[|later| - 1];
      assert RunFrom(s, before).now <= RunFrom(s, later).now;
      NotSweptYet(s, before, key, record);
      if Enabled(RunFrom(s, before), a) { SettledTake(RunFrom(s, before), a, key, record); }
      forall k | 0 <= k <= |later| ensures key in RunFrom(s, later[..k]).records {
        if k <= |before| { assert later[..k] == before[..k]; } else { assert later[..k] == later; }
      }
    }
  }

  /** The step that answers a request with its handler's outcome settles the key's record. */
  lemma AnsweringSettles(s: State, id: RequestId, outcome: Outcome, any: Outcome)
    requires Inv(s) && id in s.requests && s.requests[id].phase == Storing(outcome)
    ensures var key := s.requests[id].key;
      && Stepped(s, id, any).requests[id].phase == Answered(Fresh(outcome))
      && key in s.records
      && Settled(Stepped(s, id, any), key, Record(
           s.requests[id].endpoint, if outcome.Returned? then CompletedRecord else FailedRecord,
           s.records[key].createdAt, Some(outcome.response)))
  {
    assert OwnerHasRecord(s, id);
    forall i | i in s.requests && i != id && Owns(s.requests[i]) ensures s.requests[i].key != s.requests[id].key {}
  }

  /** Only long keys get past the first check. */
  predicate LongKey(r: Request) {
    r.phase == Inserting || Owns(r) ==> |r.key.clientKey| >= 16
  }

  ghost predicate LongKeys(s: State) {
    forall id :: id in s.requests ==> LongKey(s.requests[id])
  }

  lemma TakeKeepsLongKeys(s: State, a: Action)
    requires LongKeys(s) && Enabled(s, a)
    ensures LongKeys(Take(s, a))
  {
    if a.Step? { assert LongKey(s.requests[a.id]); }
  }

  lemma {:induction false} PastTheCheck(actions: seq<Action>)
    ensures LongKeys(Run(actions))
  {
    if actions != [] {
      PastTheCheck(actions[..|actions| - 1]);
      if Enabled(Run(actions[..|actions| - 1]), actions[|actions| - 1]) {
        TakeKeepsLongKeys(Run(actions[..|actions| - 1]), actions[|actions| - 1]);
      }
    }
  }

  /** Once a request has been answered with its handler's outcome, and until the record is swept, every later
      request with the key on the endpoint is answered with that very response, and with the key on another
      endpoint with a conflict; neither executes anything. */
  lemma RepeatsGetTheAnswer(actions: seq<Action>, first: RequestId, outcome: Outcome, later: seq<Action>,
                            repeat: RequestId, any: Outcome)
    requires first in Run(actions).requests && Run(actions).requests[first].phase == Storing(outcome)
    requires var answered := Take(Run(actions), Step(first, any)); var s := RunFrom(answered, later);
      && NeverSwept(answered, later, Run(actions).requests[first].key)
      && repeat in s.requests && s.requests[repeat].phase == LookingUp
      && s.requests[repeat].key == Run(actions).requests[first].key
    ensures var s := RunFrom(Take(Run(actions), Step(first, any)), later); var s' := Alone(s, repeat, any);
      && s'.executions == s.executions && s'.records == s.records
      && s'.requests[repeat].phase == Answered(
           if s.requests[repeat].endpoint == Run(actions).requests[first].endpoint
           then Replayed(outcome.response) else Conflict)
  {
    RunInv(actions);
    PastTheCheck(actions);
    assert LongKey(Run(actions).requests[first]);
    AnsweringSettles(Run(actions), first, outcome, any);
    var key := Run(actions).requests[first].key;
    var answered := Take(Run(actions), Step(first, any));
    SettledUntilSwept(answered, later, key, answered.records[key]);
  }

  /** For 25 hours from the first request that is every repeat; after a failure it is every repeat for ever. */
  lemma RepeatsGetTheAnswerFor25Hours(actions: seq<Action>, first: RequestId, outcome: Outcome, later: seq<Action>,
                                      repeat: RequestId, any: Outcome)
    requires first in Run(actions).requests && Run(actions).requests[first].phase == Storing(outcome)
    requires var answered := Take(Run(actions), Step(first, any)); var s := RunFrom(answered, later);
      var key := Run(actions).requests[first].key;
      && key in Run(actions).records
      && (outcome.Threw? || s.now <= Run(actions).records[key].createdAt + 25 * 3600_000)
      && repeat in s.requests && s.requests[repeat].phase == LookingUp
      && s.requests[repeat].key == key && s.requests[repeat].endpoint == Run(actions).requests[first].endpoint
    ensures var s := RunFrom(Take(Run(actions), Step(first, any)), later);
      Alone(s, repeat, any).requests[repeat].phase == Answered(Replayed(outcome.response))
  {
    RunInv(actions);
    AnsweringSettles(Run(actions), first, outcome, any);
    var key := Run(actions).requests[first].key;
    var answered := Take(Run(actions), Step(first, any));
    NotSweptYet(answered, later, key, answered.records[key]);
    RepeatsGetTheAnswer(actions, first, outcome, later, repeat, any);
  }

  // ----- the interceptor as written -----

  class IdempotencyInterceptor {
    var records: map<Key, Record>
    var executions: seq<Execution>

    constructor ()
      ensures records == map[] && executions == []
    {
      records, executions := map[], [];
    }

    /** One uninterrupted request takes the protocol's steps in order; `outcome` is what the handler
        does if it runs. What is answered depends on the key's length and its record alone. */
    method Intercept(key: Key, endpoint: string, now: nat, outcome: Outcome) returns (answer: Answer)
      requires forall k :: k in records && records[k].status != InFlight ==> records[k].response.Some?
      modifies this
      ensures answer == BadRequest <==> |key.clientKey| < 16
      ensures answer.Fresh? <==> |key.clientKey| >= 16 && key !in old(records)
      ensures answer.Replayed? <==>
        && |key.clientKey| >= 16 && key in old(records)
        && old(records)[key].endpoint == endpoint && old(records)[key].status != InFlight
      ensures answer.Replayed? ==> Some(answer.response) == old(records)[key].response
      ensures answer.Fresh? ==>
        && answer.outcome == outcome
        && executions == old(executions) + [Execution(key, endpoint, now, outcome)]
        && records == old(records)[key := Record(
             endpoint, if outcome.Returned? then CompletedRecord else FailedRecord, now, Some(outcome.response))]
      ensures !answer.Fresh? ==> records == old(records) && executions == old(executions)
      ensures var alone := State(old(records), map[0 := Request(key, endpoint, LookingUp)], old(executions), now);
        var after := Alone(alone, 0, outcome);
        records == after.records && executions == after.executions && after.requests[0].phase == Answered(answer)
    {
      if |key.clientKey| < MIN_KEY_LENGTH { return BadRequest; }
      if key in records && records[key].endpoint == endpoint {
        if records[key].status == InFlight { return Conflict; }
        return Replayed(records[key].response.value);
      }
      if key in records { return Conflict; }   // the unique index refuses the insert
      records := records[key := Record(endpoint, InFlight, now, None)];
      executions := executions + [Execution(key, endpoint, now, outcome)];
      if outcome.Returned? {
        records := records[key := records[key].(status := CompletedRecord, response := Some(outcome.response))];
      } else {
        records := records[key := records[key].(status := FailedRecord, response := Some(outcome.response))];
      }
      return Fresh(outcome);
    }

    method CleanupIdempotencyRecords(now: nat)
      modifies this`records
      ensures forall k :: k in records <==>
        && k in old(records)
        && (old(records)[k].status == CompletedRecord ==> now <= old(records)[k].createdAt + 25 * 3600_000)
      ensures records == Swept(old(records), now)
      ensures forall k :: k in records ==> records[k] == old(records)[k]
    {
      var cutoff := now - RETENTION;
      records := map k | k in records
        && !(records[k].status == CompletedRecord && records[k].createdAt < cutoff) :: records[k];
    }
  }
}
