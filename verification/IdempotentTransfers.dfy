/**
 The idempotency protocol in front of the transaction engine: the handler of an executing request may
 make one row - begin a transfer's or withdrawal's transaction, or insert a deposit - and everything
 else interleaves freely. A handler may also answer before its transaction ends, or die.
 */
module IdempotentTransfers {
  import opened Wrappers
  import opened Ledger
  import Engine = TransactionEngine
  import Serializability
  import opened Idempotency

  /** The record a row was made under. */
  datatype Origin = Origin(key: Key, createdAt: nat)

  /** `made` are the requests whose handler has made its row. */
  datatype System = System(
    protocol: State, engine: Engine.State, origins: map<TransferId, Origin>, made: set<RequestId>)

  const IDLE := System(FRESH, Engine.INITIAL, map[], {})

  datatype Move =
    | Protocol(step: Action)
    | Handler(request: RequestId, making: Engine.Action)
    | Database(statement: Engine.Action)

  /** The row an engine action starts to make. */
  function Made(a: Engine.Action): Option<TransferId> {
    match a
    case Begin(_, r) => if Inserts(r) then Some(r.transferId) else None
    case Autocommit(e) => if e.DepositInitiated? then Some(e.transferId) else None
    case _ => None
  }

  predicate Possible(s: System, m: Move) {
    match m
    case Protocol(a) => Enabled(s.protocol, a)
    case Handler(id, a) =>
      && id in s.protocol.requests && s.protocol.requests[id].phase == Executing && id !in s.made
      && s.protocol.requests[id].key in s.protocol.records
      && Made(a).Some? && Engine.Enabled(s.engine, a)
    case Database(a) => Made(a).None? && Engine.Enabled(s.engine, a)
  }

  function Next(s: System, m: Move): System
    requires Possible(s, m)
  {
    match m
    case Protocol(a) =>
      s.(protocol := Take(s.protocol, a), made := if a.Crash? then s.made - {a.id} else s.made)
    case Handler(id, a) =>
      var key := s.protocol.requests[id].key;
      s.(engine := Engine.Take(s.engine, a), made := s.made + {id},
         origins := s.origins[Made(a).value := Origin(key, s.protocol.records[key].createdAt)])
    case Database(a) => s.(engine := Engine.Take(s.engine, a))
  }

  function Trace(moves: seq<Move>): System {
    if moves == [] then IDLE
    else
      var s := Trace(moves[..|moves| - 1]);
      var m := moves[|moves| - 1];
      if Possible(s, m) then Next(s, m) else s
  }

  // ----- the invariant -----

  ghost predicate Spread(origins: map<TransferId, Origin>) {
    forall t, u :: t in origins && u in origins && t != u && origins[t].key == origins[u].key ==>
      origins[t].createdAt > origins[u].createdAt + RETENTION || origins[u].createdAt > origins[t].createdAt + RETENTION
  }

  /** A handler that has not made its row yet runs under a record that has made none. */
  ghost predicate Unmade(s: System, id: RequestId)
    requires id in s.protocol.requests
  {
    var key := s.protocol.requests[id].key;
    s.protocol.requests[id].phase == Executing && id !in s.made ==>
      && key in s.protocol.records
      && forall t :: t in s.origins && s.origins[t].key == key ==>
            s.origins[t].createdAt != s.protocol.records[key].createdAt
  }

  ghost predicate Known(s: System) {
    && Inv(s.protocol) && Serializability.EngineInv(s.engine)
    && s.origins.Keys == s.engine.used
    && Spread(s.origins)
    && (forall t :: t in s.origins ==> CurrentOrOld(s.protocol, s.origins[t].key, s.origins[t].createdAt))
    && (forall id :: id in s.protocol.requests ==> Unmade(s, id))
  }

  lemma UsedAfter(e: Engine.State, a: Engine.Action)
    requires Engine.Enabled(e, a)
    ensures Engine.Take(e, a).used == e.used + (if Made(a).Some? then {Made(a).value} else {})
    ensures Made(a).Some? ==> Made(a).value !in e.used
  {
  }

  lemma UnmadeAfterStep(s: System, a: Action, id: RequestId)
    requires Known(s) && Enabled(s.protocol, a) && id in Take(s.protocol, a).requests
    ensures Unmade(Next(s, Protocol(a)), id)
  {
    var s' := Next(s, Protocol(a));
    if s'.protocol.requests[id].phase == Executing && id !in s'.made {
      var key := s'.protocol.requests[id].key;
      if id in s.protocol.requests && s.protocol.requests[id].phase == Executing {
        assert Unmade(s, id) && OwnerHasRecord(s.protocol, id);
      } else {
        forall t | t in s.origins && s.origins[t].key == key ensures s.origins[t].createdAt != s.protocol.now {
          assert CurrentOrOld(s.protocol, key, s.origins[t].createdAt);
        }
      }
    }
  }

  lemma ProtocolKeeps(s: System, a: Action)
    requires Known(s) && Enabled(s.protocol, a)
    ensures Known(Next(s, Protocol(a)))
  {
    var s' := Next(s, Protocol(a));
    TakeInv(s.protocol, a);
    forall t | t in s'.origins ensures CurrentOrOld(s'.protocol, s'.origins[t].key, s'.origins[t].createdAt) {
      StaysCurrentOrOld(s.protocol, a, s.origins[t].key, s.origins[t].createdAt);
    }
    forall id | id in s'.protocol.requests ensures Unmade(s', id) {
      UnmadeAfterStep(s, a, id);
    }
  }

  /** The row's origin is more than 25 hours younger than any earlier one of its key. */
  lemma SpreadAfterHandler(s: System, id: RequestId, t: TransferId)
    requires Spread(s.origins) && t !in s.origins && id in s.protocol.requests && Unmade(s, id)
    requires s.protocol.requests[id].phase == Executing && id !in s.made
    requires forall u :: u in s.origins ==> CurrentOrOld(s.protocol, s.origins[u].key, s.origins[u].createdAt)
    ensures var key := s.protocol.requests[id].key;
      Spread(s.origins[t := Origin(key, s.protocol.records[key].createdAt)])
  {
    var key := s.protocol.requests[id].key;
    forall u | u in s.origins && s.origins[u].key == key
      ensures s.protocol.records[key].createdAt > s.origins[u].createdAt + RETENTION
    {
      assert CurrentOrOld(s.protocol, key, s.origins[u].createdAt);
    }
  }

  /** No other handler runs under the same key. */
  lemma UnmadeAfterHandler(s: System, id: RequestId, a: Engine.Action, u: RequestId)
    requires OneOwner(s.protocol) && Possible(s, Handler(id, a)) && u in s.protocol.requests && Unmade(s, u)
    ensures Unmade(Next(s, Handler(id, a)), u)
  {
  }

  lemma HandlerKeeps(s: System, id: RequestId, a: Engine.Action)
    requires Known(s) && Possible(s, Handler(id, a))
    ensures Known(Next(s, Handler(id, a)))
  {
    var s' := Next(s, Handler(id, a));
    assert Unmade(s, id);
    UsedAfter(s.engine, a);
    SpreadAfterHandler(s, id, Made(a).value);
    forall u | u in s'.protocol.requests ensures Unmade(s', u) {
      assert Unmade(s, u);
      UnmadeAfterHandler(s, id, a, u);
    }
    Serializability.TakeKeeps(s.engine, a);
  }

  lemma MoveKeeps(s: System, m: Move)
    requires Known(s) && Possible(s, m)
    ensures Known(Next(s, m))
  {
    match m
    case Protocol(a) => ProtocolKeeps(s, a);
    case Handler(id, a) => HandlerKeeps(s, id, a);
    case Database(a) =>
      Serializability.TakeKeeps(s.engine, a);
      UsedAfter(s.engine, a);
      forall id | id in s.protocol.requests ensures Unmade(Next(s, m), id) { assert Unmade(s, id); }
  }

  lemma {:induction false} TraceIsKnown(moves: seq<Move>)
    ensures Known(Trace(moves))
  {
    if moves == [] {
      Serializability.ReachableInv([]);
    } else {
      var before := moves[..|moves| - 1];
      TraceIsKnown(before);
      if Possible(Trace(before), moves[|moves| - 1]) {
        MoveKeeps(Trace(before), moves[|moves| - 1]);
      }
    }
  }

  /** End to end: every committed row was made under a key's record, and two rows of one key were made under
      records more than 25 hours apart, over any interleaving of requests, crashes, cleanups and statements. */
  lemma OneRowPerKey(moves: seq<Move>, t: TransferId, u: TransferId)
    requires t in Trace(moves).engine.store.transfers && u in Trace(moves).engine.store.transfers && t != u
    ensures var origins := Trace(moves).origins;
      && t in origins && u in origins
      && (origins[t].key == origins[u].key ==>
            origins[t].createdAt > origins[u].createdAt + 25 * 3600_000
            || origins[u].createdAt > origins[t].createdAt + 25 * 3600_000)
  {
    TraceIsKnown(moves);
    assert Serializability.IdsFresh(Trace(moves).engine);
  }

  lemma TraceOne(moves: seq<Move>, m: Move)
    requires Possible(Trace(moves), m)
    ensures Trace(moves + [m]) == Next(Trace(moves), m)
  {
    assert (moves + [m])[..|moves|] == moves;
  }

  /** Long enough, without a record, and from a request nobody has seen. */
  predicate FreshRequest(s: System, id: RequestId, key: Key) {
    id !in s.protocol.requests && id !in s.made && key !in s.protocol.records && |key.clientKey| >= 16
  }

  /** Its handler is about to run, under a record of this moment; nothing else has happened. */
  predicate AtItsHandler(from: System, s: System, id: RequestId, key: Key) {
    && s.engine == from.engine && s.origins == from.origins && s.made == from.made
    && id in s.protocol.requests && s.protocol.requests[id].phase == Executing && s.protocol.requests[id].key == key
    && key in s.protocol.records && s.protocol.records[key].createdAt == from.protocol.now
  }

  lemma GetsToItsHandler(moves: seq<Move>, id: RequestId, key: Key, endpoint: string, any: Outcome)
      returns (later: seq<Move>)
    requires FreshRequest(Trace(moves), id, key)
    ensures AtItsHandler(Trace(moves), Trace(moves + later), id, key)
  {
    var arrived := moves + [Protocol(Arrive(id, key, endpoint))];
    TraceOne(moves, Protocol(Arrive(id, key, endpoint)));
    var looked := arrived + [Protocol(Step(id, any))];
    TraceOne(arrived, Protocol(Step(id, any)));
    TraceOne(looked, Protocol(Step(id, any)));
    later := [Protocol(Arrive(id, key, endpoint))] + [Protocol(Step(id, any))] + [Protocol(Step(id, any))];
    assert moves + later == looked + [Protocol(Step(id, any))];
  }

  /** The protocol stands in nobody's way: from every state, a request with a long key that has no record gets to
      make any row the database lets it make, under a record of that moment. */
  lemma FreshKeyMakesItsRow(moves: seq<Move>, id: RequestId, key: Key, endpoint: string, any: Outcome,
                            making: Engine.Action) returns (later: seq<Move>)
    requires FreshRequest(Trace(moves), id, key)
    requires Made(making).Some? && Engine.Enabled(Trace(moves).engine, making)
    ensures var s, s' := Trace(moves), Trace(moves + later);
      && s'.engine == Engine.Take(s.engine, making)
      && s'.origins == s.origins[Made(making).value := Origin(key, s.protocol.now)]
  {
    var before := GetsToItsHandler(moves, id, key, endpoint, any);
    TraceOne(moves + before, Handler(id, making));
    later := before + [Handler(id, making)];
    assert moves + later == moves + before + [Handler(id, making)];
  }
}
