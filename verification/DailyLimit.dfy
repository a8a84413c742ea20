/**
 The KYC tier's daily limit is checked before the transfer's transaction opens and nothing is
 reserved, so requests between their check and their commit do not see each other.
 */
module DailyLimit {
  import opened Wrappers
  import opened MapSums

  type UserId = nat

  datatype KycTier = Unverified | Tier1 | Tier2 | Tier3

  /** None is no limit. */
  function LimitOf(tier: KycTier): Option<nat> {
    match tier
    case Unverified => Some(0)
    case Tier1 => Some(5_000_000)
    case Tier2 => Some(50_000_000)
    case Tier3 => None
  }

  /** `assertWithinDailyLimit` lets the request through. */
  predicate WithinLimit(tier: KycTier, dailyTotal: int, amount: int) {
    match LimitOf(tier)
    case None => true
    case Some(limit) => dailyTotal + amount <= limit
  }

  // ----- requests, day after day -----

  /** `currency` is what the request names and the limit query sums by; `wallet` is the currency of the wallet
      the money leaves, which nothing compares it with. `day` is when the row was inserted, None for a request
      that has not inserted its row yet. Internal rows are COMPLETED when they show; other rows count while
      PROCESSING or COMPLETED. */
  datatype Row = Row(
    userId: UserId, currency: string, wallet: string, amount: nat, internal: bool, counted: bool, day: Option<nat>)

  /** What requests name: their wallet's own currency, or any of some names. */
  datatype Naming = OwnCurrency | AnyOf(names: set<string>)

  predicate Names(naming: Naming, currency: string, wallet: string) {
    match naming
    case OwnCurrency => currency == wallet
    case AnyOf(names) => currency in names
  }

  function NameCount(naming: Naming): nat {
    match naming
    case OwnCurrency => 1
    case AnyOf(names) => |names|
  }

  /** `rows` are committed; `open` are the requests between their check and the end of their transaction. */
  datatype State = State(rows: seq<Row>, open: seq<Row>, today: nat)

  const START := State([], [], 0)

  datatype Action =
    | Check(userId: UserId, currency: string, wallet: string, amount: nat)
    | Insert(index: nat)                                             // stamps the row, unseen by others
    | Commit(index: nat)
    | Abort(index: nat)
    | OtherTransfer(row: Row)                                        // a deposit or withdrawal row
    | OtherSettles(index: nat, counted: bool)                        // its status moves
    | Midnight                                                       // open requests carry over

  predicate Mine(row: Row, u: UserId, c: string) {
    row.userId == u && row.currency == c
  }

  /** The SUM the check reads. */
  function DailyTotal(rows: seq<Row>, u: UserId, c: string, day: nat): nat {
    if rows == [] then 0
    else
      var row := rows[|rows| - 1];
      DailyTotal(rows[..|rows| - 1], u, c, day)
      + if Mine(row, u, c) && row.counted && row.day == Some(day) then row.amount else 0
  }

  /** The internal transfers of one day. */
  function InternalTotal(rows: seq<Row>, u: UserId, c: string, day: nat): nat {
    if rows == [] then 0
    else
      var row := rows[|rows| - 1];
      InternalTotal(rows[..|rows| - 1], u, c, day)
      + if Mine(row, u, c) && row.internal && row.day == Some(day) then row.amount else 0
  }

  function OpenTotal(open: seq<Row>, u: UserId, c: string): nat {
    if open == [] then 0
    else
      var row := open[|open| - 1];
      OpenTotal(open[..|open| - 1], u, c) + if Mine(row, u, c) then row.amount else 0
  }

  function OpenCount(open: seq<Row>, u: UserId, c: string): nat {
    if open == [] then 0
    else OpenCount(open[..|open| - 1], u, c) + if Mine(open[|open| - 1], u, c) then 1 else 0
  }

  function Without(open: seq<Row>, i: nat): seq<Row>
    requires i < |open|
  {
    open[..i] + open[i + 1..]
  }

  /** What left a user's wallets of one currency in internal transfers of one day. */
  function WalletTotal(rows: seq<Row>, u: UserId, wallet: string, day: nat): nat {
    if rows == [] then 0
    else
      var row := rows[|rows| - 1];
      WalletTotal(rows[..|rows| - 1], u, wallet, day)
      + if row.userId == u && row.wallet == wallet && row.internal && row.day == Some(day) then row.amount else 0
  }

  /** `n` bounds how many requests of one user in one currency are open at once. */
  predicate Enabled(tiers: UserId -> KycTier, n: nat, naming: Naming, s: State, a: Action) {
    match a
    case Check(u, c, wallet, amount) =>
      && Names(naming, c, wallet) && amount > 0 && tiers(u) != Unverified
      && WithinLimit(tiers(u), DailyTotal(s.rows, u, c, s.today), amount)
      && OpenCount(s.open, u, c) < n
    case Insert(i) => i < |s.open| && s.open[i].day.None?
    case Commit(i) => i < |s.open| && s.open[i].day.Some?
    case Abort(i) => i < |s.open|
    case OtherTransfer(row) => !row.internal && row.day.Some? && row.day.value <= s.today
    case OtherSettles(i, _) => i < |s.rows| && !s.rows[i].internal
    case Midnight => true
  }

  function Take(s: State, a: Action): State
    requires a.Insert? || a.Commit? || a.Abort? ==> a.index < |s.open|
    requires a.OtherSettles? ==> a.index < |s.rows|
  {
    match a
    case Check(u, c, wallet, amount) => s.(open := s.open + [Row(u, c, wallet, amount, true, true, None)])
    case Insert(i) => s.(open := s.open[i := s.open[i].(day := Some(s.today))])
    case Commit(i) => s.(rows := s.rows + [s.open[i]], open := Without(s.open, i))
    case Abort(i) => s.(open := Without(s.open, i))
    case OtherTransfer(row) => s.(rows := s.rows + [row])
    case OtherSettles(i, counted) => s.(rows := s.rows[i := s.rows[i].(counted := counted)])
    case Midnight => s.(today := s.today + 1)
  }

  function Run(tiers: UserId -> KycTier, n: nat, naming: Naming, schedule: seq<Action>): State {
    if schedule == [] then START
    else
      var s := Run(tiers, n, naming, schedule[..|schedule| - 1]);
      var a := schedule[|schedule| - 1];
      if Enabled(tiers, n, naming, s, a) then Take(s, a) else s
  }

  // ----- what the check decides -----

  /** SELECT amount FROM transfers WHERE user, currency, status and day are these. */
  ghost function Selected(rows: seq<Row>, u: UserId, c: string, day: nat): map<int, nat> {
    map i | 0 <= i < |rows| && rows[i].userId == u && rows[i].currency == c && rows[i].counted
            && rows[i].day == Some(day) :: rows[i].amount
  }

  /** Today's counted rows of the user and named currency add their amounts, and no other rows do. */
  lemma {:induction false} DailyTotalIsSum(rows: seq<Row>, u: UserId, c: string, day: nat)
    ensures DailyTotal(rows, u, c, day) == SumOver(Selected(rows, u, c, day), (amount: nat) => amount)
  {
    var weight := (amount: nat) => amount;
    if rows == [] {
      assert Selected(rows, u, c, day) == map[];
    } else {
      var before, last := rows[..|rows| - 1], rows[|rows| - 1];
      DailyTotalIsSum(before, u, c, day);
      if last.userId == u && last.currency == c && last.counted && last.day == Some(day) {
        SumUpdate(Selected(before, u, c, day), weight, |before|, last.amount);
        assert Selected(rows, u, c, day) == Selected(before, u, c, day)[|before| := last.amount];
      } else {
        assert Selected(rows, u, c, day) == Selected(before, u, c, day);
      }
    }
  }

  function OpenOf(open: seq<Row>, u: UserId, c: string): set<int> {
    set i | 0 <= i < |open| && open[i].userId == u && open[i].currency == c
  }

  lemma OpenOfAppend(open: seq<Row>, row: Row, u: UserId, c: string)
    ensures |OpenOf(open + [row], u, c)| ==
      |OpenOf(open, u, c)| + if row.userId == u && row.currency == c then 1 else 0
  {
    assert OpenOf(open + [row], u, c)
        == if row.userId == u && row.currency == c then OpenOf(open, u, c) + {|open|} else OpenOf(open, u, c);
  }

  lemma {:induction false} OpenCountIsSize(open: seq<Row>, u: UserId, c: string)
    ensures OpenCount(open, u, c) == |OpenOf(open, u, c)|
  {
    if open != [] {
      OpenCountIsSize(open[..|open| - 1], u, c);
      OpenOfAppend(open[..|open| - 1], open[|open| - 1], u, c);
      assert open[..|open| - 1] + [open[|open| - 1]] == open;
    }
  }

  /** A request passes the check exactly when what it names is allowed, its amount is positive and fits into what
      today's counted rows leave of the tier's limit, and fewer than n such requests are open. */
  lemma CheckPassesIff(tiers: UserId -> KycTier, n: nat, naming: Naming, s: State, u: UserId, c: string, wallet: string,
                       amount: nat)
    ensures var spent := SumOver(Selected(s.rows, u, c, s.today), (amount: nat) => amount);
      Enabled(tiers, n, naming, s, Check(u, c, wallet, amount)) <==>
        && amount > 0 && Names(naming, c, wallet)
        && |OpenOf(s.open, u, c)| < n
        && match tiers(u)
           case Unverified => false
           case Tier1 => spent + amount <= 5_000_000
           case Tier2 => spent + amount <= 50_000_000
           case Tier3 => true
  {
    DailyTotalIsSum(s.rows, u, c, s.today);
    OpenCountIsSize(s.open, u, c);
  }

  /** Rows of another user, name or day, and rows that do not count, make no difference to anybody's check. */
  lemma OtherRowsDoNotMatter(tiers: UserId -> KycTier, n: nat, naming: Naming, s: State, row: Row, u: UserId, c: string,
                             wallet: string, amount: nat)
    requires row.userId != u || row.currency != c || row.day != Some(s.today) || !row.counted
    ensures Enabled(tiers, n, naming, s.(rows := s.rows + [row]), Check(u, c, wallet, amount))
       <==> Enabled(tiers, n, naming, s, Check(u, c, wallet, amount))
  {
    CheckPassesIff(tiers, n, naming, s, u, c, wallet, amount);
    CheckPassesIff(tiers, n, naming, s.(rows := s.rows + [row]), u, c, wallet, amount);
    assert Selected(s.rows + [row], u, c, s.today) == Selected(s.rows, u, c, s.today);
  }

  /** In every run the limit is whole again after midnight: with nothing open, a verified user can send any positive
      amount up to it, whatever was sent before. */
  lemma LimitIsWholeAfterMidnight(tiers: UserId -> KycTier, n: nat, naming: Naming, schedule: seq<Action>, u: UserId,
                                  c: string, wallet: string, amount: nat)
    requires n > 0 && amount > 0 && Names(naming, c, wallet) && Run(tiers, n, naming, schedule).open == []
    requires match tiers(u)
             case Unverified => false
             case Tier1 => amount <= 5_000_000
             case Tier2 => amount <= 50_000_000
             case Tier3 => true
    ensures Enabled(tiers, n, naming, Run(tiers, n, naming, schedule + [Midnight]), Check(u, c, wallet, amount))
  {
    RunIsBounded(tiers, n, naming, schedule);
    RunOne(tiers, n, naming, schedule, Midnight);
    var s := Run(tiers, n, naming, schedule + [Midnight]);
    forall i | 0 <= i < |s.rows| ensures s.rows[i].day != Some(s.today) {
      assert GoodShown(s.today - 1, s.rows[i]);
    }
    assert Selected(s.rows, u, c, s.today) == map[];
    OpenCountIsSize(s.open, u, c);
    CheckPassesIff(tiers, n, naming, s, u, c, wallet, amount);
  }

  // ----- sums over lists -----

  lemma {:induction false} TotalsOfAppend(a: seq<Row>, b: seq<Row>, u: UserId, c: string, day: nat)
    ensures InternalTotal(a + b, u, c, day) == InternalTotal(a, u, c, day) + InternalTotal(b, u, c, day)
    ensures OpenTotal(a + b, u, c) == OpenTotal(a, u, c) + OpenTotal(b, u, c)
    ensures OpenCount(a + b, u, c) == OpenCount(a, u, c) + OpenCount(b, u, c)
    decreases |b|
  {
    if b == [] {
      assert a + b == a;
    } else {
      assert (a + b)[..|a + b| - 1] == a + b[..|b| - 1];
      TotalsOfAppend(a, b[..|b| - 1], u, c, day);
    }
  }

  /** Totals split at any element. */
  lemma TotalsAt(open: seq<Row>, i: nat, row: Row, u: UserId, c: string, day: nat)
    requires i < |open|
    ensures InternalTotal(open[i := row], u, c, day)
         == InternalTotal(Without(open, i), u, c, day) + InternalTotal([row], u, c, day)
    ensures OpenTotal(open[i := row], u, c) == OpenTotal(Without(open, i), u, c) + OpenTotal([row], u, c)
    ensures OpenCount(open[i := row], u, c) == OpenCount(Without(open, i), u, c) + OpenCount([row], u, c)
  {
    assert open[i := row] == open[..i] + ([row] + open[i + 1..]);
    TotalsOfAppend(open[..i], [row] + open[i + 1..], u, c, day);
    TotalsOfAppend([row], open[i + 1..], u, c, day);
    TotalsOfAppend(open[..i], open[i + 1..], u, c, day);
  }

  lemma TotalsWithout(open: seq<Row>, i: nat, u: UserId, c: string, day: nat)
    requires i < |open|
    ensures InternalTotal(open, u, c, day)
      == InternalTotal(Without(open, i), u, c, day) + InternalTotal([open[i]], u, c, day)
    ensures OpenTotal(open, u, c) == OpenTotal(Without(open, i), u, c) + OpenTotal([open[i]], u, c)
    ensures OpenCount(open, u, c) == OpenCount(Without(open, i), u, c) + OpenCount([open[i]], u, c)
  {
    TotalsAt(open, i, open[i], u, c, day);
    assert open[i := open[i]] == open;
  }

  /** Stamping a row changes no total but, perhaps, its day's. */
  lemma StampSparesOpen(open: seq<Row>, i: nat, today: nat, u: UserId, c: string, day: nat)
    requires i < |open| && open[i].day.None?
    ensures var open' := open[i := open[i].(day := Some(today))];
      && OpenTotal(open', u, c) == OpenTotal(open, u, c) && OpenCount(open', u, c) == OpenCount(open, u, c)
      && (day != today ==> InternalTotal(open', u, c, day) == InternalTotal(open, u, c, day))
  {
    TotalsWithout(open, i, u, c, day);
    TotalsAt(open, i, open[i].(day := Some(today)), u, c, day);
  }

  lemma {:induction false} NothingYet(rows: seq<Row>, u: UserId, c: string, day: nat)
    requires forall i :: 0 <= i < |rows| && rows[i].internal ==> rows[i].day != Some(day)
    ensures InternalTotal(rows, u, c, day) == 0
  {
    if rows != [] {
      NothingYet(rows[..|rows| - 1], u, c, day);
    }
  }

  lemma {:induction false} InternalIsCounted(rows: seq<Row>, u: UserId, c: string, day: nat)
    requires forall i :: 0 <= i < |rows| && rows[i].internal ==> rows[i].counted
    ensures InternalTotal(rows, u, c, day) <= DailyTotal(rows, u, c, day)
  {
    if rows != [] {
      InternalIsCounted(rows[..|rows| - 1], u, c, day);
    }
  }

  lemma {:induction false} DayIsPartOfOpen(open: seq<Row>, u: UserId, c: string, day: nat)
    ensures InternalTotal(open, u, c, day) <= OpenTotal(open, u, c)
  {
    if open != [] {
      DayIsPartOfOpen(open[..|open| - 1], u, c, day);
    }
  }

  /** Open requests each fit the limit, so k of them total at most k limits. */
  lemma {:induction false} OpenTotalBound(open: seq<Row>, u: UserId, c: string, limit: nat)
    requires forall i :: 0 <= i < |open| && open[i].userId == u ==> open[i].amount <= limit
    ensures OpenTotal(open, u, c) <= OpenCount(open, u, c) * limit
  {
    if open != [] {
      OpenTotalBound(open[..|open| - 1], u, c, limit);
      Distribute(OpenCount(open[..|open| - 1], u, c), limit);
    }
  }

  lemma Distribute(k: nat, limit: nat)
    ensures (k + 1) * limit == k * limit + limit
  {
  }

  lemma Scale(k: nat, n: nat, limit: nat)
    requires k <= n
    ensures k * limit <= n * limit
  {
  }

  // ----- the bound -----

  /** Whatever will still commit is already within the share: today's rows with every open request, and any
      day's rows with the open requests stamped that day. */
  predicate WithinShare(s: State, u: UserId, c: string, n: nat, limit: nat) {
    InternalTotal(s.rows, u, c, s.today) + OpenTotal(s.open, u, c) <= n * limit && OpenCount(s.open, u, c) <= n
  }

  predicate DayWithinShare(s: State, u: UserId, c: string, day: nat, n: nat, limit: nat) {
    InternalTotal(s.rows, u, c, day) + InternalTotal(s.open, u, c, day) <= n * limit
  }

  predicate GoodOpen(tiers: UserId -> KycTier, today: nat, row: Row) {
    && row.internal && row.counted && (row.day.Some? ==> row.day.value <= today)
    && (LimitOf(tiers(row.userId)).Some? ==> row.amount <= LimitOf(tiers(row.userId)).value)
  }

  predicate GoodShown(today: nat, row: Row) {
    (row.internal ==> row.counted) && row.day.Some? && row.day.value <= today
  }

  ghost predicate WellFormed(tiers: UserId -> KycTier, s: State) {
    && (forall i :: 0 <= i < |s.open| ==> GoodOpen(tiers, s.today, s.open[i]))
    && (forall i :: 0 <= i < |s.rows| ==> GoodShown(s.today, s.rows[i]))
  }

  ghost predicate Bounded(tiers: UserId -> KycTier, n: nat, s: State) {
    && WellFormed(tiers, s)
    && (forall u, c :: LimitOf(tiers(u)).Some? ==> WithinShare(s, u, c, n, LimitOf(tiers(u)).value))
    && (forall u, c, day: nat :: LimitOf(tiers(u)).Some? ==> DayWithinShare(s, u, c, day, n, LimitOf(tiers(u)).value))
  }

  lemma WellFormedAfter(tiers: UserId -> KycTier, n: nat, naming: Naming, s: State, a: Action)
    requires WellFormed(tiers, s) && Enabled(tiers, n, naming, s, a)
    ensures WellFormed(tiers, Take(s, a))
  {
  }

  /** A settling row that is not internal leaves the internal totals alone. */
  lemma SettlingSparesInternal(rows: seq<Row>, i: nat, counted: bool, u: UserId, c: string, day: nat)
    requires i < |rows|
    ensures InternalTotal(rows[i := rows[i].(counted := counted)], u, c, day) == InternalTotal(rows, u, c, day)
  {
    TotalsAt(rows, i, rows[i].(counted := counted), u, c, day);
    TotalsAt(rows, i, rows[i], u, c, day);
    assert rows[i := rows[i]] == rows;
  }

  lemma CheckedFits(tiers: UserId -> KycTier, n: nat, naming: Naming, s: State, u: UserId, c: string, wallet: string,
    amount: nat)
    requires WellFormed(tiers, s) && Enabled(tiers, n, naming, s, Check(u, c, wallet, amount))
      && LimitOf(tiers(u)).Some?
    ensures InternalTotal(s.rows, u, c, s.today) + OpenTotal(s.open, u, c) + amount <= n * LimitOf(tiers(u)).value
  {
    var limit := LimitOf(tiers(u)).value;
    InternalIsCounted(s.rows, u, c, s.today);
    OpenTotalBound(s.open, u, c, limit);
    Scale(OpenCount(s.open, u, c) + 1, n, limit);
    Distribute(OpenCount(s.open, u, c), limit);
  }

  lemma ShareAfter(tiers: UserId -> KycTier, n: nat, naming: Naming, s: State, a: Action, u: UserId, c: string)
    requires Bounded(tiers, n, s) && Enabled(tiers, n, naming, s, a) && LimitOf(tiers(u)).Some?
    ensures WithinShare(Take(s, a), u, c, n, LimitOf(tiers(u)).value)
  {
    var limit := LimitOf(tiers(u)).value;
    assert WithinShare(s, u, c, n, limit);
    match a
    case Check(u', c', wallet, amount) =>
      TotalsOfAppend(s.open, [Row(u', c', wallet, amount, true, true, None)], u, c, s.today);
      if u' == u && c' == c { CheckedFits(tiers, n, naming, s, u, c, wallet, amount); }
    case Insert(i) => StampSparesOpen(s.open, i, s.today, u, c, s.today);
    case Commit(i) => CommitKeepsShare(s, i, u, c, n, limit);
    case Abort(i) => TotalsWithout(s.open, i, u, c, s.today);
    case OtherTransfer(row) => TotalsOfAppend(s.rows, [row], u, c, s.today);
    case OtherSettles(i, counted) => SettlingSparesInternal(s.rows, i, counted, u, c, s.today);
    case Midnight => NothingYet(s.rows, u, c, s.today + 1);
  }

  lemma CommitKeepsShare(s: State, i: nat, u: UserId, c: string, n: nat, limit: nat)
    requires i < |s.open| && WithinShare(s, u, c, n, limit)
    ensures WithinShare(Take(s, Commit(i)), u, c, n, limit)
  {
    TotalsWithout(s.open, i, u, c, s.today);
    TotalsOfAppend(s.rows, [s.open[i]], u, c, s.today);
  }

  lemma DayShareAfter(tiers: UserId -> KycTier, n: nat, naming: Naming, s: State, a: Action, u: UserId, c: string,
    day: nat)
    requires Bounded(tiers, n, s) && Enabled(tiers, n, naming, s, a) && LimitOf(tiers(u)).Some?
    ensures DayWithinShare(Take(s, a), u, c, day, n, LimitOf(tiers(u)).value)
  {
    var limit := LimitOf(tiers(u)).value;
    assert DayWithinShare(s, u, c, day, n, limit);
    match a
    case Check(u', c', wallet, amount) =>
      TotalsOfAppend(s.open, [Row(u', c', wallet, amount, true, true, None)], u, c, day);
    case Insert(i) =>
      if day == s.today {
        ShareAfter(tiers, n, naming, s, a, u, c);
        DayIsPartOfOpen(Take(s, a).open, u, c, day);
      } else {
        StampSparesOpen(s.open, i, s.today, u, c, day);
      }
    case Commit(i) =>
      TotalsWithout(s.open, i, u, c, day);
      TotalsOfAppend(s.rows, [s.open[i]], u, c, day);
    case Abort(i) => TotalsWithout(s.open, i, u, c, day);
    case OtherTransfer(row) => TotalsOfAppend(s.rows, [row], u, c, day);
    case OtherSettles(i, counted) => SettlingSparesInternal(s.rows, i, counted, u, c, day);
    case Midnight =>
  }

  lemma {:induction false} RunIsBounded(tiers: UserId -> KycTier, n: nat, naming: Naming, schedule: seq<Action>)
    ensures Bounded(tiers, n, Run(tiers, n, naming, schedule))
  {
    if schedule == [] {
      forall u, c | LimitOf(tiers(u)).Some? ensures WithinShare(START, u, c, n, LimitOf(tiers(u)).value) {
        Scale(0, n, LimitOf(tiers(u)).value);
      }
      forall u, c, day: nat | LimitOf(tiers(u)).Some?
        ensures DayWithinShare(START, u, c, day, n, LimitOf(tiers(u)).value)
      {
        Scale(0, n, LimitOf(tiers(u)).value);
      }
    } else {
      var before, a := schedule[..|schedule| - 1], schedule[|schedule| - 1];
      RunIsBounded(tiers, n, naming, before);
      var s := Run(tiers, n, naming, before);
      if Enabled(tiers, n, naming, s, a) {
        WellFormedAfter(tiers, n, naming, s, a);
        forall u, c | LimitOf(tiers(u)).Some? ensures WithinShare(Take(s, a), u, c, n, LimitOf(tiers(u)).value) {
          ShareAfter(tiers, n, naming, s, a, u, c);
        }
        forall u, c, day: nat | LimitOf(tiers(u)).Some?
          ensures DayWithinShare(Take(s, a), u, c, day, n, LimitOf(tiers(u)).value)
        {
          DayShareAfter(tiers, n, naming, s, a, u, c, day);
        }
      }
    }
  }

  /** With at most n requests of a user and named currency open between check and commit, the internal
      transfers naming that currency and stamped with any one day never exceed n limits. */
  lemma DailyTotalBound(tiers: UserId -> KycTier, n: nat, naming: Naming, schedule: seq<Action>,
                        u: UserId, c: string, day: nat)
    requires LimitOf(tiers(u)).Some?
    ensures InternalTotal(Run(tiers, n, naming, schedule).rows, u, c, day) <= n * LimitOf(tiers(u)).value
  {
    RunIsBounded(tiers, n, naming, schedule);
    assert DayWithinShare(Run(tiers, n, naming, schedule), u, c, day, n, LimitOf(tiers(u)).value);
  }

  // ----- what leaves the wallets -----

  /** Every internal row names what the naming allows. */
  ghost predicate WellNamed(naming: Naming, rows: seq<Row>) {
    forall i :: 0 <= i < |rows| && rows[i].internal ==> Names(naming, rows[i].currency, rows[i].wallet)
  }

  lemma {:induction false} RunIsWellNamed(tiers: UserId -> KycTier, n: nat, naming: Naming, schedule: seq<Action>)
    ensures WellNamed(naming, Run(tiers, n, naming, schedule).rows)
    ensures WellNamed(naming, Run(tiers, n, naming, schedule).open)
  {
    if schedule != [] {
      RunIsWellNamed(tiers, n, naming, schedule[..|schedule| - 1]);
    }
  }

  /** With their own currency named, the two totals are one. */
  lemma {:induction false} OwnNameOwnTotal(rows: seq<Row>, u: UserId, wallet: string, day: nat)
    requires WellNamed(OwnCurrency, rows)
    ensures WalletTotal(rows, u, wallet, day) == InternalTotal(rows, u, wallet, day)
  {
    if rows != [] {
      OwnNameOwnTotal(rows[..|rows| - 1], u, wallet, day);
    }
  }

  /** The part of a wallet currency's total that names one of some currencies. */
  function WalletTotalNaming(rows: seq<Row>, u: UserId, wallet: string, day: nat, names: set<string>): nat {
    if rows == [] then 0
    else
      var row := rows[|rows| - 1];
      var mine := row.userId == u && row.wallet == wallet && row.internal && row.day == Some(day)
        && row.currency in names;
      WalletTotalNaming(rows[..|rows| - 1], u, wallet, day, names) + if mine then row.amount else 0
  }

  lemma {:induction false} AllNamed(rows: seq<Row>, u: UserId, wallet: string, day: nat, names: set<string>)
    requires WellNamed(AnyOf(names), rows)
    ensures WalletTotal(rows, u, wallet, day) == WalletTotalNaming(rows, u, wallet, day, names)
  {
    if rows != [] {
      AllNamed(rows[..|rows| - 1], u, wallet, day, names);
    }
  }

  lemma {:induction false} OneNameLess(rows: seq<Row>, u: UserId, wallet: string, day: nat, names: set<string>,
    c: string)
    ensures WalletTotalNaming(rows, u, wallet, day, names)
         <= InternalTotal(rows, u, c, day) + WalletTotalNaming(rows, u, wallet, day, names - {c})
  {
    if rows != [] {
      OneNameLess(rows[..|rows| - 1], u, wallet, day, names, c);
    }
  }

  lemma {:induction false} NoNamesNoTotal(rows: seq<Row>, u: UserId, wallet: string, day: nat)
    ensures WalletTotalNaming(rows, u, wallet, day, {}) == 0
  {
    if rows != [] {
      NoNamesNoTotal(rows[..|rows| - 1], u, wallet, day);
    }
  }

  lemma {:induction false} TotalOverNames(rows: seq<Row>, u: UserId, wallet: string, day: nat, names: set<string>,
    share: nat)
    requires forall c :: InternalTotal(rows, u, c, day) <= share
    ensures WalletTotalNaming(rows, u, wallet, day, names) <= |names| * share
    decreases |names|
  {
    if names == {} {
      NoNamesNoTotal(rows, u, wallet, day);
    } else {
      var c :| c in names;
      TotalOverNames(rows, u, wallet, day, names - {c}, share);
      OneNameLess(rows, u, wallet, day, names, c);
      Distribute(|names - {c}|, share);
    }
  }

  /** What leaves a user's wallets of one currency on one day: at most n limits for every name in use. */
  lemma WalletTotalBound(tiers: UserId -> KycTier, n: nat, naming: Naming, schedule: seq<Action>,
                         u: UserId, wallet: string, day: nat)
    requires LimitOf(tiers(u)).Some?
    ensures WalletTotal(Run(tiers, n, naming, schedule).rows, u, wallet, day)
         <= NameCount(naming) * (n * LimitOf(tiers(u)).value)
  {
    var rows := Run(tiers, n, naming, schedule).rows;
    var share := n * LimitOf(tiers(u)).value;
    RunIsWellNamed(tiers, n, naming, schedule);
    forall c ensures InternalTotal(rows, u, c, day) <= share {
      DailyTotalBound(tiers, n, naming, schedule, u, c, day);
    }
    match naming
    case OwnCurrency => OwnNameOwnTotal(rows, u, wallet, day);
    case AnyOf(names) =>
      AllNamed(rows, u, wallet, day, names);
      TotalOverNames(rows, u, wallet, day, names, share);
  }

  /** Serial requests keep the limit for every currency they name, and for the wallets' own if they name it. */
  lemma SerialRequestsMeetTheLimit(tiers: UserId -> KycTier, naming: Naming, schedule: seq<Action>,
                                   u: UserId, c: string, day: nat)
    requires LimitOf(tiers(u)).Some?
    ensures InternalTotal(Run(tiers, 1, naming, schedule).rows, u, c, day) <= LimitOf(tiers(u)).value
    ensures naming == OwnCurrency ==>
      WalletTotal(Run(tiers, 1, naming, schedule).rows, u, c, day) <= LimitOf(tiers(u)).value
  {
    DailyTotalBound(tiers, 1, naming, schedule, u, c, day);
    WalletTotalBound(tiers, 1, naming, schedule, u, c, day);
  }

  // ----- the bounds are reached -----

  function Copies(row: Row, k: nat): seq<Row> {
    if k == 0 then [] else Copies(row, k - 1) + [row]
  }

  lemma {:induction false} CopiesShape(row: Row, k: nat)
    ensures |Copies(row, k)| == k && forall i :: 0 <= i < k ==> Copies(row, k)[i] == row
  {
    if k > 0 { CopiesShape(row, k - 1); }
  }

  lemma CopiesPrefix(row: Row, k: nat)
    requires k > 0
    ensures |Copies(row, k)| == k && Copies(row, k)[..k - 1] == Copies(row, k - 1) && Copies(row, k)[k - 1] == row
  {
    CopiesShape(row, k);
    CopiesShape(row, k - 1);
  }

  lemma OneMoreRow(rows: seq<Row>, row: Row, day: nat)
    requires row.internal && row.day == Some(day)
    ensures InternalTotal(rows + [row], row.userId, row.currency, day)
         == InternalTotal(rows, row.userId, row.currency, day) + row.amount
    ensures WalletTotal(rows + [row], row.userId, row.wallet, day)
         == WalletTotal(rows, row.userId, row.wallet, day) + row.amount
  {
    assert (rows + [row])[..|rows|] == rows;
  }

  lemma OneMoreCopy(rows: seq<Row>, row: Row, k: nat, day: nat)
    requires k > 0 && row.internal && row.day == Some(day)
    ensures var less, more := rows + Copies(row, k - 1), rows + Copies(row, k);
      && InternalTotal(more, row.userId, row.currency, day)
         == InternalTotal(less, row.userId, row.currency, day) + row.amount
      && WalletTotal(more, row.userId, row.wallet, day) == WalletTotal(less, row.userId, row.wallet, day) + row.amount
  {
    assert rows + Copies(row, k) == rows + Copies(row, k - 1) + [row];
    OneMoreRow(rows + Copies(row, k - 1), row, day);
  }

  lemma OneTimesMore(more: nat, less: nat, base: nat, k: nat, amount: nat)
    requires k > 0 && more == less + amount && less == base + (k - 1) * amount
    ensures more == base + k * amount
  {
    Distribute(k - 1, amount);
  }

  lemma {:induction false} CopiesTotal(rows: seq<Row>, row: Row, k: nat, day: nat)
    requires row.internal && row.day == Some(day)
    ensures InternalTotal(rows + Copies(row, k), row.userId, row.currency, day)
         == InternalTotal(rows, row.userId, row.currency, day) + k * row.amount
  {
    if k == 0 {
      assert rows + Copies(row, k) == rows;
    } else {
      CopiesTotal(rows, row, k - 1, day);
      OneMoreCopy(rows, row, k, day);
      OneTimesMore(InternalTotal(rows + Copies(row, k), row.userId, row.currency, day),
                   InternalTotal(rows + Copies(row, k - 1), row.userId, row.currency, day),
                   InternalTotal(rows, row.userId, row.currency, day), k, row.amount);
    }
  }

  lemma {:induction false} CopiesWalletTotal(rows: seq<Row>, row: Row, k: nat, day: nat)
    requires row.internal && row.day == Some(day)
    ensures WalletTotal(rows + Copies(row, k), row.userId, row.wallet, day)
         == WalletTotal(rows, row.userId, row.wallet, day) + k * row.amount
  {
    if k == 0 {
      assert rows + Copies(row, k) == rows;
    } else {
      CopiesWalletTotal(rows, row, k - 1, day);
      OneMoreCopy(rows, row, k, day);
      OneTimesMore(WalletTotal(rows + Copies(row, k), row.userId, row.wallet, day),
                   WalletTotal(rows + Copies(row, k - 1), row.userId, row.wallet, day),
                   WalletTotal(rows, row.userId, row.wallet, day), k, row.amount);
    }
  }

  lemma {:induction false} CopiesCount(row: Row, k: nat)
    ensures OpenCount(Copies(row, k), row.userId, row.currency) == k
  {
    if k > 0 {
      CopiesCount(row, k - 1);
      CopiesPrefix(row, k);
    }
  }

  /** Nothing was sent under this name on this day. */
  predicate NoneOn(rows: seq<Row>, c: string, day: nat) {
    forall i :: 0 <= i < |rows| ==> rows[i].currency != c || rows[i].day != Some(day)
  }

  lemma {:induction false} NothingSent(rows: seq<Row>, u: UserId, c: string, day: nat)
    requires NoneOn(rows, c, day)
    ensures DailyTotal(rows, u, c, day) == 0 && InternalTotal(rows, u, c, day) == 0
  {
    if rows != [] {
      NothingSent(rows[..|rows| - 1], u, c, day);
    }
  }

  lemma RunOne(tiers: UserId -> KycTier, n: nat, naming: Naming, schedule: seq<Action>, a: Action)
    requires Enabled(tiers, n, naming, Run(tiers, n, naming, schedule), a)
    ensures Run(tiers, n, naming, schedule + [a]) == Take(Run(tiers, n, naming, schedule), a)
  {
    assert (schedule + [a])[..|schedule|] == schedule;
  }

  predicate FullRequest(tiers: UserId -> KycTier, naming: Naming, row: Row) {
    && row.internal && row.counted && row.amount > 0 && row.day.None? && Names(naming, row.currency, row.wallet)
    && tiers(row.userId) != Unverified && LimitOf(tiers(row.userId)) == Some(row.amount)
  }

  /** After a run that left nothing open, and no row of this name today. */
  ghost predicate Unused(tiers: UserId -> KycTier, n: nat, naming: Naming, before: seq<Action>,
                         rows: seq<Row>, c: string, day: nat) {
    Run(tiers, n, naming, before) == State(rows, [], day) && NoneOn(rows, c, day)
  }

  lemma OnePasses(tiers: UserId -> KycTier, n: nat, naming: Naming, rows: seq<Row>, k: nat, row: Row, day: nat)
    requires 0 < k <= n && FullRequest(tiers, naming, row) && NoneOn(rows, row.currency, day)
    ensures var s := State(rows, Copies(row, k - 1), day);
      var check := Check(row.userId, row.currency, row.wallet, row.amount);
      Enabled(tiers, n, naming, s, check) && Take(s, check) == State(rows, Copies(row, k), day)
  {
    CopiesCount(row, k - 1);
    NothingSent(rows, row.userId, row.currency, day);
  }

  /** n simultaneous requests for the whole limit all pass the check... */
  lemma {:induction false} AllPass(tiers: UserId -> KycTier, n: nat, naming: Naming, before: seq<Action>,
                                   rows: seq<Row>, k: nat, row: Row, day: nat) returns (schedule: seq<Action>)
    requires k <= n && FullRequest(tiers, naming, row) && Unused(tiers, n, naming, before, rows, row.currency, day)
    ensures Run(tiers, n, naming, schedule) == State(rows, Copies(row, k), day)
  {
    schedule := before;
    if k > 0 {
      schedule := AllPass(tiers, n, naming, before, rows, k - 1, row, day);
      OnePasses(tiers, n, naming, rows, k, row, day);
      RunOne(tiers, n, naming, schedule, Check(row.userId, row.currency, row.wallet, row.amount));
      schedule := schedule + [Check(row.userId, row.currency, row.wallet, row.amount)];
    }
  }

  /** ... and all commit. */
  lemma {:induction false} AllCommit(tiers: UserId -> KycTier, n: nat, naming: Naming, before: seq<Action>,
                                     rows: seq<Row>, k: nat, row: Row, day: nat) returns (schedule: seq<Action>)
    requires k <= n && FullRequest(tiers, naming, row) && Unused(tiers, n, naming, before, rows, row.currency, day)
    ensures Run(tiers, n, naming, schedule) == State(rows + Copies(row.(day := Some(day)), k), Copies(row, n - k), day)
  {
    var stamped := row.(day := Some(day));
    if k == 0 {
      schedule := AllPass(tiers, n, naming, before, rows, n, row, day);
      assert rows + Copies(stamped, k) == rows;
    } else {
      schedule := AllCommit(tiers, n, naming, before, rows, k - 1, row, day);
      CopiesShape(row, n - k + 1);
      CopiesShape(row, n - k);
      RunOne(tiers, n, naming, schedule, Insert(0));
      var inserted := schedule + [Insert(0)];
      RunOne(tiers, n, naming, inserted, Commit(0));
      assert Without(Copies(row, n - k + 1)[0 := stamped], 0) == Copies(row, n - k);
      assert rows + Copies(stamped, k - 1) + [stamped] == rows + Copies(stamped, k);
      schedule := inserted + [Commit(0)];
    }
  }

  /** Rows of other days add nothing to a day. */
  lemma {:induction false} OtherDaysAddNothing(rows: seq<Row>, more: seq<Row>, u: UserId, c: string, day: nat)
    requires forall i :: 0 <= i < |more| ==> more[i].day != Some(day)
    ensures InternalTotal(rows + more, u, c, day) == InternalTotal(rows, u, c, day)
    ensures WalletTotal(rows + more, u, c, day) == WalletTotal(rows, u, c, day)
    decreases |more|
  {
    if more == [] {
      assert rows + more == rows;
    } else {
      var less := more[..|more| - 1];
      OtherDaysAddNothing(rows, less, u, c, day);
      assert (rows + more)[..|rows + more| - 1] == rows + less;
    }
  }

  predicate BeforeDay(rows: seq<Row>, day: nat) {
    forall i :: 0 <= i < |rows| ==> rows[i].day.Some? && rows[i].day.value < day
  }

  predicate Limited(tier: KycTier) {
    tier == Tier1 || tier == Tier2
  }

  function FullRow(u: UserId, c: string, wallet: string, limit: nat): Row {
    Row(u, c, wallet, limit, true, true, None)
  }

  /** The total of every day so far is this. */
  ghost predicate EveryDay(rows: seq<Row>, u: UserId, c: string, days: nat, total: int) {
    forall day :: 0 <= day < days ==> InternalTotal(rows, u, c, day) == total
  }

  lemma FullDayAdds(rows: seq<Row>, row: Row, n: nat, day: nat) returns (rows': seq<Row>)
    requires BeforeDay(rows, day) && row.internal && row.day == Some(day)
    requires EveryDay(rows, row.userId, row.currency, day, n * row.amount)
    ensures rows' == rows + Copies(row, n) && BeforeDay(rows', day + 1)
    ensures EveryDay(rows', row.userId, row.currency, day + 1, n * row.amount)
  {
    rows' := rows + Copies(row, n);
    CopiesShape(row, n);
    CopiesTotal(rows, row, n, day);
    NothingSent(rows, row.userId, row.currency, day);
    forall d | 0 <= d < day + 1 ensures InternalTotal(rows', row.userId, row.currency, d) == n * row.amount {
      if d < day { OtherDaysAddNothing(rows, Copies(row, n), row.userId, row.currency, d); }
    }
  }

  lemma AtMidnight(tiers: UserId -> KycTier, n: nat, naming: Naming, schedule: seq<Action>, rows: seq<Row>, day: nat)
    requires Run(tiers, n, naming, schedule) == State(rows, [], day)
    ensures Run(tiers, n, naming, schedule + [Midnight]) == State(rows, [], day + 1)
  {
    RunOne(tiers, n, naming, schedule, Midnight);
  }

  /** Day after day, n full limits under one name. */
  lemma {:induction false} FullDays(tiers: UserId -> KycTier, n: nat, naming: Naming, row: Row, days: nat)
      returns (schedule: seq<Action>, rows: seq<Row>)
    requires FullRequest(tiers, naming, row)
    ensures Run(tiers, n, naming, schedule) == State(rows, [], days) && BeforeDay(rows, days)
    ensures EveryDay(rows, row.userId, row.currency, days, n * row.amount)
  {
    schedule, rows := [], [];
    if days > 0 {
      var today := days - 1;
      schedule, rows := FullDays(tiers, n, naming, row, today);
      schedule := AllCommit(tiers, n, naming, schedule, rows, n, row, today);
      rows := FullDayAdds(rows, row.(day := Some(today)), n, today);
      AtMidnight(tiers, n, naming, schedule, rows, today);
      schedule := schedule + [Midnight];
    }
  }

  /** The bound is exact, for every n and every day: some run reaches n full limits of one named currency on that
      day and on every day before it. */
  lemma DailyTotalBoundIsReached(tiers: UserId -> KycTier, n: nat, naming: Naming, u: UserId, c: string, wallet: string,
                                 day: nat) returns (schedule: seq<Action>)
    requires Limited(tiers(u)) && Names(naming, c, wallet)
    ensures forall d :: 0 <= d <= day ==>
      InternalTotal(Run(tiers, n, naming, schedule).rows, u, c, d) == n * LimitOf(tiers(u)).value
  {
    var rows;
    schedule, rows := FullDays(tiers, n, naming, FullRow(u, c, wallet, LimitOf(tiers(u)).value), day + 1);
  }

  /** Names a request on an NGN wallet can use. */
  function NamesForNaira(naming: Naming): set<string> {
    match naming
    case OwnCurrency => {"NGN"}
    case AnyOf(names) => names
  }

  lemma {:induction false} NothingLeft(rows: seq<Row>, u: UserId, wallet: string, day: nat)
    requires BeforeDay(rows, day)
    ensures WalletTotal(rows, u, wallet, day) == 0
  {
    if rows != [] { NothingLeft(rows[..|rows| - 1], u, wallet, day); }
  }

  /** Today's rows so far, all of these names, and all the limits there are for them. */
  ghost predicate Named(tiers: UserId -> KycTier, n: nat, u: UserId, rows: seq<Row>, more: seq<Row>, day: nat,
                        names: set<string>) {
    && Limited(tiers(u))
    && WalletTotal(rows + more, u, "NGN", day) == |names| * (n * LimitOf(tiers(u)).value)
    && forall i :: 0 <= i < |more| ==> more[i].currency in names && more[i].day == Some(day)
  }

  lemma NameIsUnused(rows: seq<Row>, more: seq<Row>, day: nat, names: set<string>, c: string)
    requires BeforeDay(rows, day) && c !in names && forall i :: 0 <= i < |more| ==> more[i].currency in names
    ensures NoneOn(rows + more, c, day)
  {
  }

  lemma NamedAfter(tiers: UserId -> KycTier, n: nat, u: UserId, rows: seq<Row>, more: seq<Row>, day: nat,
                   names: set<string>, c: string) returns (more': seq<Row>)
    requires Named(tiers, n, u, rows, more, day, names) && c !in names
    ensures rows + more' == rows + more + Copies(FullRow(u, c, "NGN", LimitOf(tiers(u)).value).(day := Some(day)), n)
    ensures Named(tiers, n, u, rows, more', day, names + {c})
  {
    var stamped := FullRow(u, c, "NGN", LimitOf(tiers(u)).value).(day := Some(day));
    more' := more + Copies(stamped, n);
    assert rows + more + Copies(stamped, n) == rows + more';
    CopiesShape(stamped, n);
    CopiesWalletTotal(rows + more, stamped, n, day);
    Distribute(|names|, n * stamped.amount);
  }

  lemma OneNameMore(tiers: UserId -> KycTier, n: nat, naming: Naming, u: UserId, before: seq<Action>, rows: seq<Row>,
                    more: seq<Row>, day: nat, names: set<string>, c: string)
      returns (schedule: seq<Action>, more': seq<Row>)
    requires Names(naming, c, "NGN") && c !in names && BeforeDay(rows, day)
    requires Run(tiers, n, naming, before) == State(rows + more, [], day)
    requires Named(tiers, n, u, rows, more, day, names)
    ensures Run(tiers, n, naming, schedule) == State(rows + more', [], day)
    ensures Named(tiers, n, u, rows, more', day, names + {c})
  {
    NameIsUnused(rows, more, day, names, c);
    schedule := AllCommit(tiers, n, naming, before, rows + more, n, FullRow(u, c, "NGN", LimitOf(tiers(u)).value), day);
    more' := NamedAfter(tiers, n, u, rows, more, day, names, c);
  }

  /** One name after the other on one day, each for n full limits, all from one NGN wallet. */
  lemma {:induction false} NameAfterName(tiers: UserId -> KycTier, n: nat, naming: Naming, u: UserId,
                                         before: seq<Action>, rows: seq<Row>, day: nat, names: set<string>)
      returns (schedule: seq<Action>, more: seq<Row>)
    requires Limited(tiers(u)) && names <= NamesForNaira(naming)
    requires Run(tiers, n, naming, before) == State(rows, [], day) && BeforeDay(rows, day)
    ensures Run(tiers, n, naming, schedule) == State(rows + more, [], day)
    ensures Named(tiers, n, u, rows, more, day, names)
    decreases |names|
  {
    schedule, more := before, [];
    if names == {} {
      assert rows + more == rows;
      NothingLeft(rows, u, "NGN", day);
    } else {
      var c :| c in names;
      schedule, more := NameAfterName(tiers, n, naming, u, before, rows, day, names - {c});
      schedule, more := OneNameMore(tiers, n, naming, u, schedule, rows, more, day, names - {c}, c);
      assert names - {c} + {c} == names;
    }
  }

  ghost predicate EveryWalletDay(rows: seq<Row>, u: UserId, days: nat, total: int) {
    forall day :: 0 <= day < days ==> WalletTotal(rows, u, "NGN", day) == total
  }

  lemma FullWalletDayAdds(tiers: UserId -> KycTier, n: nat, u: UserId, rows: seq<Row>, more: seq<Row>, day: nat,
                          names: set<string>, total: int)
    requires BeforeDay(rows, day) && Named(tiers, n, u, rows, more, day, names)
    requires total == |names| * (n * LimitOf(tiers(u)).value) && EveryWalletDay(rows, u, day, total)
    ensures BeforeDay(rows + more, day + 1) && EveryWalletDay(rows + more, u, day + 1, total)
  {
    forall d | 0 <= d < day + 1 ensures WalletTotal(rows + more, u, "NGN", d) == total {
      if d < day { OtherDaysAddNothing(rows, more, u, "NGN", d); }
    }
  }

  /** Day after day, under every name. */
  lemma {:induction false} FullWalletDays(tiers: UserId -> KycTier, n: nat, naming: Naming, u: UserId, days: nat,
                                          total: int) returns (schedule: seq<Action>, rows: seq<Row>)
    requires Limited(tiers(u)) && total == |NamesForNaira(naming)| * (n * LimitOf(tiers(u)).value)
    ensures Run(tiers, n, naming, schedule) == State(rows, [], days) && BeforeDay(rows, days)
    ensures EveryWalletDay(rows, u, days, total)
  {
    schedule, rows := [], [];
    if days > 0 {
      schedule, rows := FullWalletDays(tiers, n, naming, u, days - 1, total);
      var more;
      schedule, more := NameAfterName(tiers, n, naming, u, schedule, rows, days - 1, NamesForNaira(naming));
      FullWalletDayAdds(tiers, n, u, rows, more, days - 1, NamesForNaira(naming), total);
      AtMidnight(tiers, n, naming, schedule, rows + more, days - 1);
      schedule := schedule + [Midnight];
      rows := rows + more;
    }
  }

  /** The wallet bound is exact too, on every day. */
  lemma WalletTotalBoundIsReached(tiers: UserId -> KycTier, n: nat, naming: Naming, u: UserId, day: nat)
      returns (schedule: seq<Action>)
    requires Limited(tiers(u))
    ensures forall d :: 0 <= d <= day ==>
      WalletTotal(Run(tiers, n, naming, schedule).rows, u, "NGN", d)
        == NameCount(naming) * (n * LimitOf(tiers(u)).value)
  {
    var rows;
    schedule, rows :=
      FullWalletDays(tiers, n, naming, u, day + 1, NameCount(naming) * (n * LimitOf(tiers(u)).value));
  }

  /** Two names are enough: without any concurrency, a first-tier user moves twice the limit of 50,000 naira
      out of one NGN wallet on one day. */
  lemma TwoNamesPassTheLimit(tiers: UserId -> KycTier, u: UserId) returns (schedule: seq<Action>)
    requires tiers(u) == Tier1
    ensures WalletTotal(Run(tiers, 1, AnyOf({"NGN", "USD"}), schedule).rows, u, "NGN", 0) == 10_000_000
  {
    schedule := WalletTotalBoundIsReached(tiers, 1, AnyOf({"NGN", "USD"}), u, 0);
    assert "NGN" != "USD" by { assert "NGN"[0] != "USD"[0]; }
    assert |{"NGN", "USD"}| == 2;
  }

  // ----- exactly when the documented limit holds -----

  /** On no day of any run does more than the limit leave the user's wallets of a currency. */
  ghost predicate LimitHolds(tiers: UserId -> KycTier, n: nat, naming: Naming, u: UserId)
    requires LimitOf(tiers(u)).Some?
  {
    forall schedule, wallet, day: nat ::
      WalletTotal(Run(tiers, n, naming, schedule).rows, u, wallet, day) <= LimitOf(tiers(u)).value
  }

  lemma Product(names: nat, n: nat, limit: nat)
    ensures names * n <= 1 ==> names * (n * limit) <= limit
    ensures names * n >= 2 && limit > 0 ==> names * (n * limit) > limit
  {
    assert names * (n * limit) == names * n * limit;
    if names * n >= 2 { Scale(2, names * n, limit); } else { Scale(names * n, 1, limit); }
  }

  /** The documented limit holds exactly when the user may not transfer at all, or a user's requests are serial
      and name one currency - their wallet's own, say: names times concurrent requests is at most one. */
  lemma LimitHoldsIff(tiers: UserId -> KycTier, n: nat, naming: Naming, u: UserId)
    requires LimitOf(tiers(u)).Some?
    ensures LimitHolds(tiers, n, naming, u) <==> tiers(u) == Unverified || NameCount(naming) * n <= 1
  {
    var limit := LimitOf(tiers(u)).value;
    Product(NameCount(naming), n, limit);
    if tiers(u) == Unverified || NameCount(naming) * n <= 1 {
      forall schedule, wallet, day: nat
        ensures WalletTotal(Run(tiers, n, naming, schedule).rows, u, wallet, day) <= limit
      {
        WalletTotalBound(tiers, n, naming, schedule, u, wallet, day);
      }
    } else {
      var schedule := WalletTotalBoundIsReached(tiers, n, naming, u, 0);
      assert WalletTotal(Run(tiers, n, naming, schedule).rows, u, "NGN", 0) > limit;
    }
  }
}
