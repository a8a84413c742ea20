/**
 The fee-rule cache: one entry per currency and transaction type, filled on a miss for five minutes
 and deleted after an administrator's change. Serially it always agrees with the table; when the
 miss-read-set steps interleave with a change, a stale rule can be served for a bounded time.
 */
module FeeCache {
  import opened Wrappers
  import FeeEngine

  type RuleId = nat

  const TTL: nat := 300_000

  datatype Key = Key(currency: string, transactionType: string)

  datatype Row = Row(key: Key, active: bool, priority: int, rule: FeeEngine.Rule)

  type Table = map<RuleId, Row>

  /** `findOne` with isActive, ordered by descending priority: some active row of highest priority. */
  ghost predicate Best(table: Table, key: Key, row: Row) {
    && row in table.Values && row.active && row.key == key
    && forall id :: id in table && table[id].active && table[id].key == key ==> table[id].priority <= row.priority
  }

  ghost predicate NoRule(table: Table, key: Key) {
    forall id :: id in table ==> !(table[id].active && table[id].key == key)
  }

  ghost predicate Answers(table: Table, key: Key, found: Option<Row>) {
    match found
    case None => NoRule(table, key)
    case Some(row) => Best(table, key, row)
  }

  /** The query always has an answer. */
  lemma {:induction false} SomeAnswer(table: Table, key: Key) returns (found: Option<Row>)
    ensures Answers(table, key, found)
    decreases |table|
  {
    if table == map[] {
      return None;
    }
    var id :| id in table;
    var rest := table - {id};
    assert |rest| < |table| by { assert |rest.Keys| == |table.Keys| - 1; }
    found := SomeAnswer(rest, key);
    var row := table[id];
    if row.active && row.key == key && (found.None? || found.value.priority < row.priority) {
      found := Some(row);
    }
    assert forall k :: k in table ==> k == id || (k in rest && rest[k] == table[k]);
    if found.Some? && found.value != row {
      var k :| k in rest && rest[k] == found.value;
      assert table[k] == found.value;
    }
  }

  // ----- serially -----

  datatype Entry = Entry(row: Row, expiresAt: nat)

  /** Rule requests are validated to name a currency and a transaction type. */
  predicate Named(key: Key) {
    key.currency != "" && key.transactionType != ""
  }

  class FeesService {
    var table: Table
    var cache: map<Key, Entry>

    constructor ()
      ensures Valid() && table == map[] && cache == map[]
    {
      table, cache := map[], map[];
    }

    /** Every cached rule is a current active rule of maximal priority for its key. */
    ghost predicate Valid()
      reads this
    {
      forall key :: key in cache ==> Best(table, key, cache[key].row)
    }

    /** `found` is what the query returns if it is asked. */
    method GetActiveRule(key: Key, now: nat, found: Option<Row>) returns (rule: Option<Row>)
      requires Valid() && Answers(table, key, found)
      modifies this`cache
      ensures Valid() && Answers(table, key, rule)
      ensures var hit := key in old(cache) && now < old(cache)[key].expiresAt;
        && (hit ==> rule == Some(old(cache)[key].row) && cache == old(cache))
        && (!hit ==> rule == found)
        && (!hit ==> cache == if found.Some? then old(cache)[key := Entry(found.value, now + 300_000)] else old(cache))
    {
      if key in cache && now < cache[key].expiresAt {
        return Some(cache[key].row);
      }
      if found.Some? {
        cache := cache[key := Entry(found.value, now + TTL)];
      }
      return found;
    }

    /** Both arguments are optional; without both, or with an empty one, nothing is deleted. */
    method InvalidateFeeCache(currency: Option<string>, transactionType: Option<string>)
      modifies this`cache
      ensures cache == old(cache) -
        if currency.None? || transactionType.None? || currency.value == "" || transactionType.value == "" then {}
        else {Key(currency.value, transactionType.value)}
    {
      if currency.Some? && currency.value != "" && transactionType.Some? && transactionType.value != "" {
        cache := cache - {Key(currency.value, transactionType.value)};
      }
    }

    method CreateFeeRule(id: RuleId, row: Row)
      requires Valid() && id !in table && Named(row.key)
      modifies this
      ensures Valid() && table == old(table)[id := row] && cache == old(cache) - {row.key}
    {
      table := table[id := row];
      InvalidateFeeCache(Some(row.key.currency), Some(row.key.transactionType));
      OtherKeysKeepBest(old(table), table, old(cache), row.key);
    }

    /** An update cannot change a rule's currency or transaction type. */
    method UpdateFeeRule(id: RuleId, row: Row)
      requires Valid() && (id in table ==> row.key == table[id].key && Named(row.key))
      modifies this
      ensures Valid()
      ensures table == if id in old(table) then old(table)[id := row] else old(table)
      ensures cache == if id in old(table) then old(cache) - {row.key} else old(cache)
    {
      if id in table {
        table := table[id := row];
        InvalidateFeeCache(Some(row.key.currency), Some(row.key.transactionType));
        OtherKeysKeepBest(old(table), table, old(cache), row.key);
      }
    }

    /** Seeding inserts missing rules and invalidates nothing: agreement survives exactly when the seeded
        rule does not outrank a cached rule of its key. */
    method SeedRule(id: RuleId, row: Row)
      requires Valid() && id !in table
      modifies this`table
      ensures table == old(table)[id := row] && cache == old(cache)
      ensures Valid() <==> !row.active || row.key !in cache || row.priority <= cache[row.key].row.priority
    {
      table := table[id := row];
      SeedKeepsBest(old(table), id, row, cache);
    }
  }

  lemma OtherKeysKeepBest(before: Table, after: Table, cache: map<Key, Entry>, changed: Key)
    requires forall key :: key in cache ==> Best(before, key, cache[key].row)
    requires forall id :: id in after && after[id].key != changed ==> id in before && before[id] == after[id]
    requires forall id :: id in before && before[id].key != changed ==> id in after && before[id] == after[id]
    ensures forall key :: key in cache && key != changed ==> Best(after, key, cache[key].row)
  {
    forall key | key in cache && key != changed ensures Best(after, key, cache[key].row) {
      var row := cache[key].row;
      assert Best(before, key, row);
      var id :| id in before && before[id] == row;
      assert after[id] == row;
    }
  }

  predicate Outranks(row: Row, key: Key, cached: Row) {
    row.active && row.key == key && row.priority > cached.priority
  }

  lemma SeedKeepsBest(before: Table, id: RuleId, row: Row, cache: map<Key, Entry>)
    requires id !in before && forall key :: key in cache ==> Best(before, key, cache[key].row)
    ensures forall key :: key in cache ==>
      (Best(before[id := row], key, cache[key].row) <==> !Outranks(row, key, cache[key].row))
  {
    var after := before[id := row];
    forall key | key in cache
      ensures Best(after, key, cache[key].row) <==> !Outranks(row, key, cache[key].row)
    {
      var k :| k in before && before[k] == cache[key].row;
      assert after[k] == cache[key].row;
      assert after[id] == row;
      assert forall j :: j in after ==> j == id || (j in before && after[j] == before[j]);
    }
  }

  // ----- interleaved -----

  /** The table from `since` until the next version, or until now. */
  datatype Version = Version(since: nat, table: Table)

  datatype Cached = Cached(row: Row, setAt: nat)

  /** A calculation that missed and has read the table, but not yet set the cache. */
  datatype Reader = Reader(key: Key, found: Option<Row>, readAt: nat)

  datatype State = State(versions: seq<Version>, cache: map<Key, Cached>, readers: map<nat, Reader>, now: nat)

  const START := State([Version(0, map[])], map[], map[], 0)

  datatype Action =
    | ReadTable(reader: nat, key: Key, found: Option<Row>)
    | SetCache(reader: nat)
    | SaveRow(id: RuleId, row: Row)      // an administrator's insert or update...
    | DeleteEntry(key: Key)              // ... and its invalidation, a separate step
    | Tick(elapsed: nat)

  function CurrentTable(s: State): Table
    requires s.versions != []
  {
    s.versions[|s.versions| - 1].table
  }

  function Hit(s: State, key: Key): Option<Row> {
    if key in s.cache && s.now < s.cache[key].setAt + TTL then Some(s.cache[key].row) else None
  }

  /** `delay` bounds the time between a calculation's read of the table and its write of the cache. */
  ghost predicate Enabled(s: State, a: Action, delay: nat) {
    match a
    case ReadTable(r, key, found) =>
      r !in s.readers && Hit(s, key).None? && s.versions != [] && Answers(CurrentTable(s), key, found)
    case SetCache(r) => r in s.readers && s.now <= s.readers[r].readAt + delay
    case SaveRow(_, _) => s.versions != []
    case DeleteEntry(_) => true
    case Tick(_) => true
  }

  function Take(s: State, a: Action): State
    requires a.SetCache? ==> a.reader in s.readers
    requires a.SaveRow? ==> s.versions != []
  {
    match a
    case ReadTable(r, key, found) => s.(readers := s.readers[r := Reader(key, found, s.now)])
    case SetCache(r) =>
      var reader := s.readers[r];
      s.(readers := s.readers - {r},
         cache := if reader.found.Some? then s.cache[reader.key := Cached(reader.found.value, s.now)] else s.cache)
    case SaveRow(id, row) => s.(versions := s.versions + [Version(s.now, CurrentTable(s)[id := row])])
    case DeleteEntry(key) => s.(cache := s.cache - {key})
    case Tick(elapsed) => s.(now := s.now + elapsed)
  }

  /** Whether rows of a key may be saved while a calculation has read but not set, or while one is cached. */
  datatype Discipline = Discipline(saveWhileReading: bool, saveWhileCached: bool)

  predicate Touches(table: Table, id: RuleId, row: Row, key: Key) {
    row.key == key || (id in table && table[id].key == key)
  }

  predicate Pending(s: State, key: Key) {
    exists r :: r in s.readers && s.readers[r].key == key && s.readers[r].found.Some?
  }

  ghost predicate Allowed(d: Discipline, s: State, a: Action)
    requires s.versions != []
  {
    a.SaveRow? ==> forall key :: Touches(CurrentTable(s), a.id, a.row, key) ==>
      && (d.saveWhileReading || !Pending(s, key))
      && (d.saveWhileCached || Hit(s, key).None?)
  }

  ghost function Run(d: Discipline, actions: seq<Action>, delay: nat): State {
    if actions == [] then START
    else
      var s := Run(d, actions[..|actions| - 1], delay);
      var a := actions[|actions| - 1];
      if s.versions != [] && Allowed(d, s, a) && Enabled(s, a, delay) then Take(s, a) else s
  }

  /** Version i was in force at time t. */
  predicate InForce(s: State, i: nat, t: nat) {
    && i < |s.versions| && s.versions[i].since <= t <= s.now
    && (i + 1 < |s.versions| ==> t <= s.versions[i + 1].since)
  }

  /** The row was the best rule of its key at some moment not before `since`. */
  ghost predicate BestSince(s: State, key: Key, row: Row, since: int) {
    exists i: nat, t: nat :: since <= t && InForce(s, i, t) && Best(s.versions[i].table, key, row)
  }

  ghost predicate Inv(s: State, delay: nat) {
    && s.versions != [] && s.versions[|s.versions| - 1].since <= s.now
    && (forall r :: r in s.readers && s.readers[r].found.Some? ==>
          BestSince(s, s.readers[r].key, s.readers[r].found.value, s.readers[r].readAt))
    && (forall key :: key in s.cache ==> BestSince(s, key, s.cache[key].row, s.cache[key].setAt - delay))
  }

  lemma BestSinceLater(s: State, s': State, key: Key, row: Row, since: int, since': int)
    requires BestSince(s, key, row, since) && since' <= since && s.now <= s'.now && s.versions <= s'.versions
    requires |s'.versions| > |s.versions| ==> s'.versions[|s.versions|].since >= s.now
    ensures BestSince(s', key, row, since')
  {
    var i: nat, t: nat :| since <= t && InForce(s, i, t) && Best(s.versions[i].table, key, row);
    assert s'.versions[i] == s.versions[i];
    assert InForce(s', i, t);
  }

  lemma {:induction false} RunInv(d: Discipline, actions: seq<Action>, delay: nat)
    ensures Inv(Run(d, actions, delay), delay)
  {
    if actions != [] {
      var before, a := actions[..|actions| - 1], actions[|actions| - 1];
      RunInv(d, before, delay);
      if Allowed(d, Run(d, before, delay), a) && Enabled(Run(d, before, delay), a, delay) {
        TakeInv(Run(d, before, delay), a, delay);
      }
    }
  }

  lemma TakeInv(s: State, a: Action, delay: nat)
    requires Inv(s, delay) && Enabled(s, a, delay)
    ensures Inv(Take(s, a), delay)
  {
    var s' := Take(s, a);
    forall r | r in s'.readers && s'.readers[r].found.Some?
      ensures BestSince(s', s'.readers[r].key, s'.readers[r].found.value, s'.readers[r].readAt)
    {
      var reader := s'.readers[r];
      if a.ReadTable? && r == a.reader {
        assert InForce(s', |s.versions| - 1, s.now);
      } else {
        BestSinceLater(s, s', reader.key, reader.found.value, reader.readAt, reader.readAt);
      }
    }
    forall key | key in s'.cache ensures BestSince(s', key, s'.cache[key].row, s'.cache[key].setAt - delay) {
      if a.SetCache? && s.readers[a.reader].found.Some? && key == s.readers[a.reader].key {
        BestSinceLater(s, s', key, s'.cache[key].row, s.readers[a.reader].readAt, s'.cache[key].setAt - delay);
      } else {
        BestSinceLater(s, s', key, s.cache[key].row, s.cache[key].setAt - delay, s.cache[key].setAt - delay);
      }
    }
  }

  /** However calculations and changes interleave, a rule the cache serves was the best active rule of its
      key at some moment within the last TTL plus the longest read-to-set delay. */
  lemma StalenessIsBounded(d: Discipline, actions: seq<Action>, delay: nat, key: Key)
    requires Hit(Run(d, actions, delay), key).Some?
    ensures var s := Run(d, actions, delay);
      BestSince(s, key, Hit(s, key).value, s.now - 300_000 - delay)
  {
    RunInv(d, actions, delay);
    var s := Run(d, actions, delay);
    BestSinceLater(s, s, key, s.cache[key].row, s.cache[key].setAt - delay, s.now - TTL - delay);
  }

  // ----- exactly when an interleaved cache agrees with the table -----

  /** Every rule the cache would serve is a current best rule of its key. */
  ghost predicate Agrees(s: State) {
    s.versions != [] && forall key :: Hit(s, key).Some? ==> Best(CurrentTable(s), key, Hit(s, key).value)
  }

  ghost predicate AlwaysAgrees(d: Discipline, delay: nat) {
    forall actions :: Agrees(Run(d, actions, delay))
  }

  ghost predicate ReadersAgree(s: State)
    requires s.versions != []
  {
    forall r :: r in s.readers && s.readers[r].found.Some? ==>
      Best(CurrentTable(s), s.readers[r].key, s.readers[r].found.value)
  }

  lemma UntouchedStaysBest(table: Table, id: RuleId, row: Row, key: Key, best: Row)
    requires Best(table, key, best) && !Touches(table, id, row, key)
    ensures Best(table[id := row], key, best)
  {
    var k :| k in table && table[k] == best;
    assert table[id := row][k] == best;
  }

  lemma SavingKeepsAgreement(s: State, a: Action, delay: nat)
    requires Agrees(s) && ReadersAgree(s) && a.SaveRow? && Allowed(Discipline(false, false), s, a)
    ensures Agrees(Take(s, a)) && ReadersAgree(Take(s, a))
  {
    var s' := Take(s, a);
    assert CurrentTable(s') == CurrentTable(s)[a.id := a.row];
    forall key | Hit(s', key).Some? ensures Best(CurrentTable(s'), key, Hit(s', key).value) {
      assert Hit(s, key) == Hit(s', key);
      UntouchedStaysBest(CurrentTable(s), a.id, a.row, key, Hit(s, key).value);
    }
    forall r | r in s'.readers && s'.readers[r].found.Some?
      ensures Best(CurrentTable(s'), s'.readers[r].key, s'.readers[r].found.value)
    {
      assert Pending(s, s.readers[r].key);
      UntouchedStaysBest(CurrentTable(s), a.id, a.row, s.readers[r].key, s.readers[r].found.value);
    }
  }

  lemma TakeKeepsAgreement(s: State, a: Action, delay: nat)
    requires Agrees(s) && ReadersAgree(s) && Allowed(Discipline(false, false), s, a) && Enabled(s, a, delay)
    ensures Agrees(Take(s, a)) && ReadersAgree(Take(s, a))
  {
    if a.SaveRow? {
      SavingKeepsAgreement(s, a, delay);
    } else {
      var s' := Take(s, a);
      forall key | Hit(s', key).Some? ensures Best(CurrentTable(s'), key, Hit(s', key).value) {
        assert Hit(s, key) == Hit(s', key) || (a.SetCache? && key == s.readers[a.reader].key);
      }
    }
  }

  lemma {:induction false} DisciplinedRunAgrees(actions: seq<Action>, delay: nat)
    ensures Agrees(Run(Discipline(false, false), actions, delay))
    ensures ReadersAgree(Run(Discipline(false, false), actions, delay))
  {
    if actions != [] {
      var d := Discipline(false, false);
      var before, a := actions[..|actions| - 1], actions[|actions| - 1];
      DisciplinedRunAgrees(before, delay);
      var s := Run(d, before, delay);
      if Allowed(d, s, a) && Enabled(s, a, delay) {
        TakeKeepsAgreement(s, a, delay);
      }
    }
  }

  lemma RunOne(d: Discipline, actions: seq<Action>, a: Action, delay: nat)
    requires Run(d, actions, delay).versions != [] && Allowed(d, Run(d, actions, delay), a)
    requires Enabled(Run(d, actions, delay), a, delay)
    ensures Run(d, actions + [a], delay) == Take(Run(d, actions, delay), a)
  {
    assert (actions + [a])[..|actions|] == actions;
  }

  const OLD_FEE := Row(Key("NGN", "internal"), true, 10, FeeEngine.NGN_INTERNAL)
  const NEW_FEE := OLD_FEE.(rule := FeeEngine.NGN_INTERNAL.(cap := Some(6000)))

  ghost predicate ServesReplacedRule(s: State) {
    && s.versions != [] && CurrentTable(s) == map[0 := NEW_FEE]
    && Hit(s, OLD_FEE.key) == Some(OLD_FEE)
  }

  lemma ReplacedIsNotBest(s: State)
    requires ServesReplacedRule(s)
    ensures !Agrees(s)
  {
    assert !Best(CurrentTable(s), OLD_FEE.key, OLD_FEE);
  }

  /** One calculation has read the old rule and not set the cache yet. */
  lemma OldRuleRead(d: Discipline, delay: nat) returns (actions: seq<Action>)
    ensures Run(d, actions, delay)
         == State([Version(0, map[]), Version(0, map[0 := OLD_FEE])], map[],
                  map[0 := Reader(OLD_FEE.key, Some(OLD_FEE), 0)], 0)
  {
    assert Run(d, [], delay) == START;
    RunOne(d, [], SaveRow(0, OLD_FEE), delay);
    var saved := [] + [SaveRow(0, OLD_FEE)];
    var s := Run(d, saved, delay);
    assert CurrentTable(s) == map[0 := OLD_FEE] && CurrentTable(s)[0] == OLD_FEE;
    RunOne(d, saved, ReadTable(0, OLD_FEE.key, Some(OLD_FEE)), delay);
    actions := saved + [ReadTable(0, OLD_FEE.key, Some(OLD_FEE))];
  }

  /** Invalidation does not prevent staleness: a reader that read before a change and sets the cache after
      the change's invalidation makes the cache serve a rule that is no longer in the table. */
  lemma StaleRuleCanBeServed(d: Discipline, delay: nat) returns (actions: seq<Action>)
    requires d.saveWhileReading
    ensures ServesReplacedRule(Run(d, actions, delay))
  {
    var read := OldRuleRead(d, delay);
    RunOne(d, read, SaveRow(0, NEW_FEE), delay);
    var changed := read + [SaveRow(0, NEW_FEE)];
    RunOne(d, changed, DeleteEntry(OLD_FEE.key), delay);
    var deleted := changed + [DeleteEntry(OLD_FEE.key)];
    RunOne(d, deleted, SetCache(0), delay);
    actions := deleted + [SetCache(0)];
  }

  /** Between a change and its own invalidation the cache serves the old rule. */
  lemma CachedRuleIsReplaced(d: Discipline, delay: nat) returns (actions: seq<Action>)
    requires d.saveWhileCached
    ensures ServesReplacedRule(Run(d, actions, delay))
  {
    var read := OldRuleRead(d, delay);
    RunOne(d, read, SetCache(0), delay);
    var filled := read + [SetCache(0)];
    RunOne(d, filled, SaveRow(0, NEW_FEE), delay);
    actions := filled + [SaveRow(0, NEW_FEE)];
  }

  /** Interleaved, the cache agrees with the table in every run exactly when no row of a key is saved while
      a reader of the key is pending or an entry of the key is live. */
  lemma AlwaysAgreesIff(d: Discipline, delay: nat)
    ensures AlwaysAgrees(d, delay) <==> !d.saveWhileReading && !d.saveWhileCached
  {
    if d.saveWhileReading {
      var actions := StaleRuleCanBeServed(d, delay);
      ReplacedIsNotBest(Run(d, actions, delay));
    } else if d.saveWhileCached {
      var actions := CachedRuleIsReplaced(d, delay);
      ReplacedIsNotBest(Run(d, actions, delay));
    } else {
      forall actions ensures Agrees(Run(d, actions, delay)) { DisciplinedRunAgrees(actions, delay); }
    }
  }
}
