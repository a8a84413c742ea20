/**
 Fraud evaluation. The velocity rule keeps one cached counter whose time to live every request
 refreshes; it counts bursts, which is more than any rolling window holds.
 */
module Velocity {
  import opened Wrappers

  // ----- the counter -----

  datatype Counter = Counter(count: nat, expiresAt: nat)

  function Cached(cache: Option<Counter>, now: nat): nat {
    match cache
    case None => 0
    case Some(c) => if now < c.expiresAt then c.count else 0
  }

  function Refresh(cache: Option<Counter>, now: nat, window: nat): Counter {
    Counter(Cached(cache, now) + 1, now + window)
  }

  /** The counter after evaluations at these times, one after the other. */
  function CounterAfter(times: seq<nat>, window: nat): Option<Counter> {
    if times == [] then None
    else Some(Refresh(CounterAfter(times[..|times| - 1], window), times[|times| - 1], window))
  }

  /** The count the i-th evaluation compares with the rule's maximum. */
  function CountAt(times: seq<nat>, window: nat, i: nat): nat
    requires i < |times|
  {
    CounterAfter(times[..i + 1], window).value.count
  }

  predicate Passes(times: seq<nat>, window: nat, maxCount: nat, i: nat)
    requires i < |times|
  {
    CountAt(times, window, i) <= maxCount
  }

  ghost predicate InOrder(times: seq<nat>) {
    forall i, j :: 0 <= i <= j < |times| ==> times[i] <= times[j]
  }

  lemma CounterUnfold(times: seq<nat>, window: nat, i: nat)
    requires i < |times|
    ensures CounterAfter(times[..i + 1], window) == Some(Refresh(CounterAfter(times[..i], window), times[i], window))
  {
    assert times[..i + 1][..i] == times[..i];
  }

  /** Within less than a window of each other, evaluations count on; after a pause of a window they start over. */
  lemma CountStep(times: seq<nat>, window: nat, i: nat)
    requires InOrder(times) && 0 < i < |times|
    ensures CountAt(times, window, i) ==
      if times[i] - times[i - 1] < window then CountAt(times, window, i - 1) + 1 else 1
  {
    CounterUnfold(times, window, i);
    CounterUnfold(times, window, i - 1);
  }

  /** The burst that ends at evaluation i starts at `first`: no pause of a window inside it, one before it. */
  ghost predicate BurstFrom(times: seq<nat>, window: nat, first: nat, i: nat) {
    && first <= i < |times|
    && (forall k :: first < k <= i ==> times[k] - times[k - 1] < window)
    && (first > 0 ==> times[first] - times[first - 1] >= window)
  }

  /** The counter is exactly the length of the current burst. */
  lemma {:induction false} CountIsBurstLength(times: seq<nat>, window: nat, first: nat, i: nat)
    requires InOrder(times) && BurstFrom(times, window, first, i)
    ensures CountAt(times, window, i) == i - first + 1
  {
    CounterUnfold(times, window, i);
    if i > 0 {
      CountStep(times, window, i);
      if i > first {
        CountIsBurstLength(times, window, first, i - 1);
      }
    }
  }

  lemma {:induction false} CountsRunOn(times: seq<nat>, window: nat, lo: nat, i: nat)
    requires InOrder(times) && lo <= i < |times| && times[i] - times[lo] < window
    ensures CountAt(times, window, i) == CountAt(times, window, lo) + (i - lo)
    ensures CountAt(times, window, lo) >= 1
  {
    if i == lo {
      CounterUnfold(times, window, i);
    } else {
      CountsRunOn(times, window, lo, i - 1);
      CountStep(times, window, i);
    }
  }

  /** The counter over-approximates the rolling window: it is at least the number of evaluations in it. */
  lemma CountCoversWindow(times: seq<nat>, window: nat, lo: nat, i: nat)
    requires InOrder(times) && lo <= i < |times| && times[i] - times[lo] < window
    ensures CountAt(times, window, i) >= i - lo + 1
  {
    CountsRunOn(times, window, lo, i);
  }

  /** The rolling window that ends with evaluation i begins with evaluation `lo`. */
  ghost predicate WindowFrom(times: seq<nat>, window: nat, lo: nat, i: nat) {
    && lo <= i < |times| && times[i] - times[lo] < window
    && (lo > 0 ==> times[i] - times[lo - 1] >= window)
  }

  /** The counter is the rolling window's count exactly while the current burst fits in one window. */
  lemma CountIsWindowCountIff(times: seq<nat>, window: nat, first: nat, lo: nat, i: nat)
    requires InOrder(times) && BurstFrom(times, window, first, i) && WindowFrom(times, window, lo, i)
    ensures CountAt(times, window, i) == i - lo + 1 <==> times[i] - times[first] < window
    ensures first <= lo
  {
    CountIsBurstLength(times, window, first, i);
  }

  /** Every evaluation's count is its window's exactly when no burst outlasts a window. */
  ghost predicate CountsWindows(times: seq<nat>, window: nat) {
    forall lo: nat, i: nat :: WindowFrom(times, window, lo, i) ==> CountAt(times, window, i) == i - lo + 1
  }

  ghost predicate BurstsFit(times: seq<nat>, window: nat) {
    forall first: nat, i: nat :: BurstFrom(times, window, first, i) ==> times[i] - times[first] < window
  }

  lemma {:induction false} SomeBurst(times: seq<nat>, window: nat, i: nat) returns (first: nat)
    requires InOrder(times) && i < |times|
    ensures BurstFrom(times, window, first, i) || window == 0
  {
    first := i;
    if i > 0 && times[i] - times[i - 1] < window {
      first := SomeBurst(times, window, i - 1);
    }
  }

  lemma {:induction false} SomeWindow(times: seq<nat>, window: nat, lo: nat, i: nat) returns (start: nat)
    requires InOrder(times) && lo <= i < |times| && times[i] - times[lo] < window
    ensures WindowFrom(times, window, start, i)
    decreases lo
  {
    start := lo;
    if lo > 0 && times[i] - times[lo - 1] < window {
      start := SomeWindow(times, window, lo - 1, i);
    }
  }

  lemma CountsWindowsIff(times: seq<nat>, window: nat)
    requires InOrder(times) && window > 0
    ensures CountsWindows(times, window) <==> BurstsFit(times, window)
  {
    if CountsWindows(times, window) {
      forall first: nat, i: nat | BurstFrom(times, window, first, i) ensures times[i] - times[first] < window {
        var lo := SomeWindow(times, window, i, i);
        CountIsWindowCountIff(times, window, first, lo, i);
      }
    } else {
      var lo: nat, i: nat :| WindowFrom(times, window, lo, i) && CountAt(times, window, i) != i - lo + 1;
      var first := SomeBurst(times, window, i);
      CountIsWindowCountIff(times, window, first, lo, i);
    }
  }

  function PassCount(times: seq<nat>, window: nat, maxCount: nat, lo: nat, hi: nat): nat
    requires lo <= hi <= |times|
    decreases hi - lo
  {
    if lo == hi then 0
    else PassCount(times, window, maxCount, lo, hi - 1) + if Passes(times, window, maxCount, hi - 1) then 1 else 0
  }

  lemma {:induction false} PassCountBound(times: seq<nat>, window: nat, maxCount: nat, lo: nat, hi: nat)
    requires InOrder(times) && lo < hi <= |times| && times[hi - 1] - times[lo] < window
    ensures PassCount(times, window, maxCount, lo, hi) <= hi - lo
    ensures PassCount(times, window, maxCount, lo, hi) <= maxCount
  {
    CountsRunOn(times, window, lo, hi - 1);
    if hi - 1 > lo {
      PassCountBound(times, window, maxCount, lo, hi - 1);
      if Passes(times, window, maxCount, hi - 1) {
        assert PassCount(times, window, maxCount, lo, hi - 1) <= hi - 1 - lo;
      }
    } else {
      assert PassCount(times, window, maxCount, lo, lo) == 0;
    }
  }

  /** With serial evaluations and a working cache, a BLOCK rule lets at most `maxCount` evaluations pass in
      any interval shorter than the window. */
  lemma AtMostMaxCountPass(times: seq<nat>, window: nat, maxCount: nat, lo: nat, hi: nat)
    requires InOrder(times) && lo <= hi <= |times| && (lo < hi ==> times[hi - 1] - times[lo] < window)
    ensures PassCount(times, window, maxCount, lo, hi) <= maxCount
  {
    if lo < hi {
      PassCountBound(times, window, maxCount, lo, hi);
    }
  }

  /** The other side of one refreshed counter: steady traffic with every gap just under the window is
      counted without end, so from evaluation `maxCount` on all of it is blocked, although no window
      ever holds more than two evaluations (for windows of at least two units). */
  lemma SteadyTrafficIsBlocked(times: seq<nat>, window: nat, maxCount: nat, i: nat)
    requires window >= 2 && maxCount <= i < |times|
    requires forall k :: 0 <= k < |times| - 1 ==> times[k + 1] == times[k] + (window - 1)
    ensures !Passes(times, window, maxCount, i)
    ensures forall k :: 0 <= k < |times| - 2 ==> times[k + 2] - times[k] >= window
  {
    SteadyInOrder(times, window - 1);
    CountIsBurstLength(times, window, 0, i);
    forall k | 0 <= k < |times| - 2 ensures times[k + 2] - times[k] >= window {
      assert times[k + 1] == times[k] + (window - 1);
      assert times[(k + 1) + 1] == times[k + 1] + (window - 1);
    }
  }

  lemma {:induction false} SteadyInOrder(times: seq<nat>, gap: nat)
    requires forall k :: 0 <= k < |times| - 1 ==> times[k + 1] == times[k] + gap
    ensures InOrder(times)
  {
    if times != [] {
      SteadyInOrder(times[..|times| - 1], gap);
      if |times| > 1 {
        assert times[(|times| - 2) + 1] == times[|times| - 2] + gap;
      }
    }
  }

  // ----- evaluating all rules -----

  datatype FraudAction = Block | Flag | Notify

  /** The amount rules are aggregates over SQL; their verdict is an input. */
  datatype RuleKind =
    | VelocityRule(maxCount: nat, window: nat)
    | DailyLimitRule(maxAmount: int)
    | AggregateRule(triggered: bool)

  datatype Rule = Rule(id: nat, kind: RuleKind, action: FraudAction)

  /** `dailyTotal` is today's total of the user and currency; `recent` is the database count that replaces
      the counter while the cache is down. */
  datatype Params = Params(
    userId: nat, currency: string, amount: int, dailyTotal: int, now: nat, cacheUp: bool, recent: nat)

  datatype CacheKey = CacheKey(userId: nat, currency: string, ruleId: nat)

  datatype Alert = Alert(userId: nat, ruleId: nat, action: FraudAction)

  type Cache = map<CacheKey, Counter>

  function KeyOf(rule: Rule, p: Params): CacheKey {
    CacheKey(p.userId, p.currency, rule.id)
  }

  function Slot(cache: Cache, key: CacheKey): Option<Counter> {
    if key in cache then Some(cache[key]) else None
  }

  function RuleCount(cache: Cache, rule: Rule, p: Params): nat {
    if p.cacheUp then Cached(Slot(cache, KeyOf(rule, p)), p.now) + 1 else p.recent + 1
  }

  predicate Triggers(cache: Cache, rule: Rule, p: Params) {
    match rule.kind
    case VelocityRule(maxCount, _) => RuleCount(cache, rule, p) > maxCount
    case DailyLimitRule(maxAmount) => p.dailyTotal + p.amount > maxAmount
    case AggregateRule(triggered) => triggered
  }

  function CacheAfter(cache: Cache, rule: Rule, p: Params): Cache {
    match rule.kind
    case VelocityRule(_, window) =>
      if p.cacheUp then cache[KeyOf(rule, p) := Refresh(Slot(cache, KeyOf(rule, p)), p.now, window)] else cache
    case _ => cache
  }

  function CacheAfterAll(cache: Cache, rules: seq<Rule>, p: Params): Cache {
    if rules == [] then cache
    else CacheAfter(CacheAfterAll(cache, rules[..|rules| - 1], p), rules[|rules| - 1], p)
  }

  /** The alerts of the rules that trigger, in rule order. */
  function Alerts(cache: Cache, rules: seq<Rule>, p: Params): seq<Alert> {
    if rules == [] then []
    else
      var rule := rules[|rules| - 1];
      Alerts(cache, rules[..|rules| - 1], p)
      + if Triggers(cache, rule, p) then [Alert(p.userId, rule.id, rule.action)] else []
  }

  ghost predicate DistinctIds(rules: seq<Rule>) {
    forall i, j :: 0 <= i < j < |rules| ==> rules[i].id != rules[j].id
  }

  /** Rules have their own counters, so one rule's verdict does not depend on the rules before it. */
  lemma {:induction false} EarlierRulesDoNotMatter(cache: Cache, rules: seq<Rule>, rule: Rule, p: Params)
    requires forall i :: 0 <= i < |rules| ==> rules[i].id != rule.id
    ensures Slot(CacheAfterAll(cache, rules, p), KeyOf(rule, p)) == Slot(cache, KeyOf(rule, p))
    ensures Triggers(CacheAfterAll(cache, rules, p), rule, p) == Triggers(cache, rule, p)
  {
    if rules != [] {
      EarlierRulesDoNotMatter(cache, rules[..|rules| - 1], rule, p);
    }
  }

  // ----- what the rules decide -----

  /** A velocity rule triggers when this evaluation is more than `maxCount` on a counter that has not expired, or on
      the database's count while the cache is down; a daily limit when the amount takes the day's total past it. */
  lemma TriggersIff(cache: Cache, rule: Rule, p: Params)
    ensures Triggers(cache, rule, p) <==>
      match rule.kind
      case VelocityRule(maxCount, _) =>
        var key := CacheKey(p.userId, p.currency, rule.id);
        if !p.cacheUp then p.recent >= maxCount
        else if key in cache && p.now < cache[key].expiresAt then cache[key].count >= maxCount
        else maxCount == 0
      case DailyLimitRule(maxAmount) => p.dailyTotal + p.amount > maxAmount
      case AggregateRule(triggered) => triggered
  {
  }

  /** Alerts come in rule order, one for each rule that triggers. */
  lemma {:induction false} AlertsOfAppend(cache: Cache, a: seq<Rule>, b: seq<Rule>, p: Params)
    ensures Alerts(cache, a + b, p) == Alerts(cache, a, p) + Alerts(cache, b, p)
    decreases |b|
  {
    if b == [] {
      assert a + b == a;
    } else {
      assert (a + b)[..|a + b| - 1] == a + b[..|b| - 1];
      AlertsOfAppend(cache, a, b[..|b| - 1], p);
    }
  }

  lemma AlertsOfOne(cache: Cache, rule: Rule, p: Params)
    ensures Alerts(cache, [rule], p) ==
      if Triggers(cache, rule, p) then [Alert(p.userId, rule.id, rule.action)] else []
  {
    assert [rule][..0] == [];
    assert Alerts(cache, [], p) == [];
  }

  // ----- many evaluations, of any users -----

  /** The active rules depend on currency and tier, so each evaluation has its own list. */
  datatype Evaluation = Evaluation(rules: seq<Rule>, params: Params)

  function CacheRun(evaluations: seq<Evaluation>): Cache {
    if evaluations == [] then map[]
    else
      var last := evaluations[|evaluations| - 1];
      CacheAfterAll(CacheRun(evaluations[..|evaluations| - 1]), last.rules, last.params)
  }

  /** Evaluation i is stopped: some BLOCK rule triggers on the counters it finds. */
  ghost predicate BlockedAt(evaluations: seq<Evaluation>, i: nat)
    requires i < |evaluations|
  {
    exists r :: 0 <= r < |evaluations[i].rules| && evaluations[i].rules[r].action == Block
      && Triggers(CacheRun(evaluations[..i]), evaluations[i].rules[r], evaluations[i].params)
  }

  predicate Of(e: Evaluation, u: nat, c: string) {
    e.params.userId == u && e.params.currency == c
  }

  /** When this user was evaluated in this currency. */
  function TimesOf(evaluations: seq<Evaluation>, u: nat, c: string): seq<nat> {
    if evaluations == [] then []
    else
      var last := evaluations[|evaluations| - 1];
      TimesOf(evaluations[..|evaluations| - 1], u, c) + if Of(last, u, c) then [last.params.now] else []
  }

  /** Whenever this user is evaluated in this currency, the rule is among the rules and the cache is up. */
  ghost predicate AlwaysApplies(evaluations: seq<Evaluation>, rule: Rule, u: nat, c: string) {
    forall i :: 0 <= i < |evaluations| && Of(evaluations[i], u, c) ==>
      evaluations[i].params.cacheUp && DistinctIds(evaluations[i].rules) && rule in evaluations[i].rules
  }

  ghost predicate TimePasses(evaluations: seq<Evaluation>) {
    forall i, j :: 0 <= i <= j < |evaluations| ==> evaluations[i].params.now <= evaluations[j].params.now
  }

  lemma {:induction false} OthersSpareTheSlot(cache: Cache, rules: seq<Rule>, p: Params, key: CacheKey)
    requires key.userId != p.userId || key.currency != p.currency
    ensures Slot(CacheAfterAll(cache, rules, p), key) == Slot(cache, key)
  {
    if rules != [] { OthersSpareTheSlot(cache, rules[..|rules| - 1], p, key); }
  }

  /** Among rules with their own ids, a velocity rule's slot is refreshed exactly once. */
  lemma {:induction false} OneRefresh(cache: Cache, rules: seq<Rule>, j: nat, p: Params)
    requires DistinctIds(rules) && j < |rules| && rules[j].kind.VelocityRule? && p.cacheUp
    ensures var key := KeyOf(rules[j], p);
      Slot(CacheAfterAll(cache, rules, p), key) == Some(Refresh(Slot(cache, key), p.now, rules[j].kind.window))
  {
    var before := rules[..|rules| - 1];
    if j == |before| {
      EarlierRulesDoNotMatter(cache, before, rules[j], p);
    } else {
      OneRefresh(cache, before, j, p);
      assert rules[j].id != rules[|before|].id;
    }
  }

  /** A rule's slot is the counter of the user's own evaluations, whoever else is evaluated in between. */
  lemma {:induction false} SlotIsCounter(evaluations: seq<Evaluation>, rule: Rule, u: nat, c: string)
    requires rule.kind.VelocityRule? && AlwaysApplies(evaluations, rule, u, c)
    ensures Slot(CacheRun(evaluations), CacheKey(u, c, rule.id))
         == CounterAfter(TimesOf(evaluations, u, c), rule.kind.window)
  {
    if evaluations != [] {
      var before, last := evaluations[..|evaluations| - 1], evaluations[|evaluations| - 1];
      SlotIsCounter(before, rule, u, c);
      if Of(last, u, c) {
        var j :| 0 <= j < |last.rules| && last.rules[j] == rule;
        OneRefresh(CacheRun(before), last.rules, j, last.params);
        assert TimesOf(evaluations, u, c)[..|TimesOf(before, u, c)|] == TimesOf(before, u, c);
      } else {
        OthersSpareTheSlot(CacheRun(before), last.rules, last.params, CacheKey(u, c, rule.id));
        assert TimesOf(evaluations, u, c) == TimesOf(before, u, c);
      }
    }
  }

  lemma {:induction false} TimesOfPrefix(evaluations: seq<Evaluation>, u: nat, c: string, i: nat)
    requires i <= |evaluations|
    ensures TimesOf(evaluations[..i], u, c) <= TimesOf(evaluations, u, c)
  {
    if i < |evaluations| {
      TimesOfPrefix(evaluations[..|evaluations| - 1], u, c, i);
      assert evaluations[..|evaluations| - 1][..i] == evaluations[..i];
    } else {
      assert evaluations[..i] == evaluations;
    }
  }

  lemma TimesOfNext(evaluations: seq<Evaluation>, u: nat, c: string, i: nat)
    requires i < |evaluations|
    ensures TimesOf(evaluations[..i + 1], u, c)
         == TimesOf(evaluations[..i], u, c) + if Of(evaluations[i], u, c) then [evaluations[i].params.now] else []
  {
    assert evaluations[..i + 1][..i] == evaluations[..i];
  }

  /** The position of evaluation i among the evaluations of this user and currency. */
  function Position(evaluations: seq<Evaluation>, u: nat, c: string, i: nat): nat
    requires i <= |evaluations|
  {
    |TimesOf(evaluations[..i], u, c)|
  }

  /** The rule triggers at evaluation i exactly when the burst count of the user's own evaluations is past its
      maximum. */
  lemma TriggersIsNotPasses(evaluations: seq<Evaluation>, rule: Rule, u: nat, c: string, i: nat)
    requires rule.kind.VelocityRule? && AlwaysApplies(evaluations, rule, u, c)
    requires i < |evaluations| && Of(evaluations[i], u, c)
    ensures Position(evaluations, u, c, i) < |TimesOf(evaluations, u, c)|
    ensures TimesOf(evaluations, u, c)[Position(evaluations, u, c, i)] == evaluations[i].params.now
    ensures Triggers(CacheRun(evaluations[..i]), rule, evaluations[i].params) <==>
      !Passes(TimesOf(evaluations, u, c), rule.kind.window, rule.kind.maxCount, Position(evaluations, u, c, i))
  {
    var times, k := TimesOf(evaluations, u, c), Position(evaluations, u, c, i);
    SlotIsCounter(evaluations[..i], rule, u, c);
    TimesOfNext(evaluations, u, c, i);
    TimesOfPrefix(evaluations, u, c, i);
    TimesOfPrefix(evaluations, u, c, i + 1);
    assert times[..k] == TimesOf(evaluations[..i], u, c);
    CounterUnfold(times, rule.kind.window, k);
  }

  /** How many of evaluations lo to hi - 1 are this user's in this currency and are not stopped. */
  ghost function LetThrough(evaluations: seq<Evaluation>, u: nat, c: string, lo: nat, hi: nat): nat
    requires lo <= hi <= |evaluations|
    decreases hi - lo
  {
    if lo == hi then 0
    else
      LetThrough(evaluations, u, c, lo, hi - 1)
      + if Of(evaluations[hi - 1], u, c) && !BlockedAt(evaluations, hi - 1) then 1 else 0
  }

  lemma NotBlockedPasses(evaluations: seq<Evaluation>, rule: Rule, u: nat, c: string, i: nat)
    requires rule.kind.VelocityRule? && rule.action == Block && AlwaysApplies(evaluations, rule, u, c)
    requires i < |evaluations| && Of(evaluations[i], u, c) && !BlockedAt(evaluations, i)
    ensures Position(evaluations, u, c, i) < |TimesOf(evaluations, u, c)|
    ensures Passes(TimesOf(evaluations, u, c), rule.kind.window, rule.kind.maxCount, Position(evaluations, u, c, i))
  {
    TriggersIsNotPasses(evaluations, rule, u, c, i);
    var r :| 0 <= r < |evaluations[i].rules| && evaluations[i].rules[r] == rule;
  }

  /** One evaluation more counts on both sides, or on neither, or passes though another rule stops it. */
  lemma OneMorePasses(evaluations: seq<Evaluation>, rule: Rule, u: nat, c: string, i: nat)
    requires rule.kind.VelocityRule? && rule.action == Block && AlwaysApplies(evaluations, rule, u, c)
    requires i < |evaluations|
    ensures var times := TimesOf(evaluations, u, c); var k := Position(evaluations, u, c, i);
      if Of(evaluations[i], u, c)
      then
        && Position(evaluations, u, c, i + 1) == k + 1 && k < |times|
        && (!BlockedAt(evaluations, i) ==> Passes(times, rule.kind.window, rule.kind.maxCount, k))
      else Position(evaluations, u, c, i + 1) == k
  {
    TimesOfNext(evaluations, u, c, i);
    if Of(evaluations[i], u, c) {
      TriggersIsNotPasses(evaluations, rule, u, c, i);
      if !BlockedAt(evaluations, i) { NotBlockedPasses(evaluations, rule, u, c, i); }
    }
  }

  lemma {:induction false} LetThroughPasses(evaluations: seq<Evaluation>, rule: Rule, u: nat, c: string, lo: nat,
                                            hi: nat)
    requires rule.kind.VelocityRule? && rule.action == Block && AlwaysApplies(evaluations, rule, u, c)
    requires lo <= hi <= |evaluations|
    ensures Position(evaluations, u, c, lo) <= Position(evaluations, u, c, hi) <= |TimesOf(evaluations, u, c)|
    ensures LetThrough(evaluations, u, c, lo, hi)
         <= PassCount(TimesOf(evaluations, u, c), rule.kind.window, rule.kind.maxCount,
                      Position(evaluations, u, c, lo), Position(evaluations, u, c, hi))
    decreases hi - lo
  {
    if lo == hi {
      TimesOfPrefix(evaluations, u, c, hi);
    } else {
      LetThroughPasses(evaluations, rule, u, c, lo, hi - 1);
      OneMorePasses(evaluations, rule, u, c, hi - 1);
    }
  }

  lemma {:induction false} TimesInOrder(evaluations: seq<Evaluation>, u: nat, c: string)
    requires TimePasses(evaluations)
    ensures InOrder(TimesOf(evaluations, u, c))
    ensures forall k :: 0 <= k < |TimesOf(evaluations, u, c)| ==>
      TimesOf(evaluations, u, c)[k] <= evaluations[|evaluations| - 1].params.now
  {
    if evaluations != [] { TimesInOrder(evaluations[..|evaluations| - 1], u, c); }
  }

  /** The user's evaluations from `lo` on are no earlier than evaluation `lo`. */
  lemma {:induction false} TimesFrom(evaluations: seq<Evaluation>, u: nat, c: string, lo: nat, hi: nat)
    requires TimePasses(evaluations) && lo < hi <= |evaluations|
    ensures forall k :: Position(evaluations, u, c, lo) <= k < Position(evaluations, u, c, hi) ==>
      evaluations[lo].params.now <= TimesOf(evaluations[..hi], u, c)[k]
  {
    TimesOfNext(evaluations, u, c, hi - 1);
    if lo < hi - 1 { TimesFrom(evaluations, u, c, lo, hi - 1); }
  }

  /** While the cache is up, a BLOCK velocity rule lets through at most `maxCount` evaluations of one user and
      currency in any interval shorter than its window, whatever other rules and users there are. */
  lemma AtMostMaxCountLetThrough(evaluations: seq<Evaluation>, rule: Rule, u: nat, c: string, lo: nat, hi: nat)
    requires rule.kind.VelocityRule? && rule.action == Block && AlwaysApplies(evaluations, rule, u, c)
    requires TimePasses(evaluations) && lo < hi <= |evaluations|
    requires evaluations[hi - 1].params.now - evaluations[lo].params.now < rule.kind.window
    ensures LetThrough(evaluations, u, c, lo, hi) <= rule.kind.maxCount
  {
    var times, a, b := TimesOf(evaluations, u, c), Position(evaluations, u, c, lo), Position(evaluations, u, c, hi);
    LetThroughPasses(evaluations, rule, u, c, lo, hi);
    TimesInOrder(evaluations, u, c);
    TimesInOrder(evaluations[..hi], u, c);
    TimesFrom(evaluations, u, c, lo, hi);
    TimesOfPrefix(evaluations, u, c, hi);
    assert times[..b] == TimesOf(evaluations[..hi], u, c);
    AtMostMaxCountPass(times, rule.kind.window, rule.kind.maxCount, a, b);
  }

  class FraudService {
    var cache: Cache
    var alerts: seq<Alert>

    constructor ()
      ensures cache == map[] && alerts == []
    {
      cache, alerts := map[], [];
    }

    method CheckVelocity(rule: Rule, p: Params) returns (triggered: bool)
      requires rule.kind.VelocityRule?
      modifies this`cache
      ensures p.cacheUp ==>
        var key := CacheKey(p.userId, p.currency, rule.id);
        var live := if key in old(cache) && p.now < old(cache)[key].expiresAt then old(cache)[key].count else 0;
        && (triggered <==> live + 1 > rule.kind.maxCount)
        && cache == old(cache)[key := Counter(live + 1, p.now + rule.kind.window)]
      ensures !p.cacheUp ==> (triggered <==> p.recent + 1 > rule.kind.maxCount) && cache == old(cache)
      ensures triggered <==> Triggers(old(cache), rule, p)
      ensures cache == CacheAfter(old(cache), rule, p)
    {
      var count: nat;
      if p.cacheUp {
        var key := KeyOf(rule, p);
        var current := if key in cache && p.now < cache[key].expiresAt then cache[key].count else 0;
        count := current + 1;
        cache := cache[key := Counter(count, p.now + rule.kind.window)];
      } else {
        count := p.recent + 1;
      }
      triggered := count > rule.kind.maxCount;
    }

    /** Every rule is checked, and every alert saved, before a BLOCK among them stops the transaction. `history` are
        the evaluations that led to the counters, so that this one is the next of such a run. */
    method Evaluate(rules: seq<Rule>, p: Params, ghost history: seq<Evaluation>) returns (blocked: bool)
      requires DistinctIds(rules)
      modifies this
      ensures old(cache) == CacheRun(history) ==>
        && cache == CacheRun(history + [Evaluation(rules, p)])
        && (blocked <==> BlockedAt(history + [Evaluation(rules, p)], |history|))
      ensures cache == CacheAfterAll(old(cache), rules, p)
      ensures alerts == old(alerts) + Alerts(old(cache), rules, p)
      ensures blocked <==> exists i :: 0 <= i < |rules| && rules[i].action == Block && Triggers(old(cache), rules[i], p)
    {
      var results: seq<Alert> := [];
      var blocking := false;
      for k := 0 to |rules|
        invariant cache == CacheAfterAll(old(cache), rules[..k], p)
        invariant alerts == old(alerts)
        invariant results == Alerts(old(cache), rules[..k], p)
        invariant blocking <==> exists i :: 0 <= i < k && rules[i].action == Block && Triggers(old(cache), rules[i], p)
      {
        var rule := rules[k];
        assert rules[..k + 1][..k] == rules[..k];
        EarlierRulesDoNotMatter(old(cache), rules[..k], rule, p);
        var triggered;
        match rule.kind {
          case VelocityRule(_, _) => triggered := CheckVelocity(rule, p);
          case DailyLimitRule(maxAmount) => triggered := p.dailyTotal + p.amount > maxAmount;
          case AggregateRule(verdict) => triggered := verdict;
        }
        if triggered {
          results := results + [Alert(p.userId, rule.id, rule.action)];
          blocking := blocking || rule.action == Block;
        }
      }
      assert rules[..|rules|] == rules;
      alerts := alerts + results;
      blocked := blocking;
      assert (history + [Evaluation(rules, p)])[..|history|] == history;
    }
  }
}
