/** Account statements over one wallet's ledger entries, and the per-user summary of transfers. */
module Statements {
  import opened Wrappers
  import opened MapSums
  import opened Ledger
  import opened LedgerInvariants

  /** A ledger entry with its createdAt. */
  datatype Line = Line(entry: LedgerEntry, at: int)

  datatype Statement = Statement(
    openingBalance: int, closingBalance: int, totalCredits: int, totalDebits: int, entries: seq<Line>)

  /** The balance carried by the latest entry stamped at or before `from`. */
  function OpeningBalance(lines: seq<Line>, from: int): int {
    if lines == [] then 0
    else
      var last := lines[|lines| - 1];
      if last.at <= from then last.entry.balanceAfter else OpeningBalance(lines[..|lines| - 1], from)
  }

  /** Both ends are included. */
  function Period(lines: seq<Line>, from: int, to: int): seq<Line> {
    if lines == [] then []
    else
      var last := lines[|lines| - 1];
      Period(lines[..|lines| - 1], from, to) + if from <= last.at <= to then [last] else []
  }

  function Total(lines: seq<Line>, kind: EntryType): int {
    if lines == [] then 0
    else
      var last := lines[|lines| - 1];
      Total(lines[..|lines| - 1], kind) + if last.entry.kind == kind then last.entry.amount else 0
  }

  function GenerateStatement(lines: seq<Line>, from: int, to: int): Statement {
    var entries := Period(lines, from, to);
    var opening := OpeningBalance(lines, from);
    Statement(opening, if entries == [] then opening else entries[|entries| - 1].entry.balanceAfter,
              Total(entries, CreditEntry), Total(entries, DebitEntry), entries)
  }

  // ----- what a statement says -----

  function Same(x: int): int { x }

  /** The amounts of one kind in the period, by position. */
  ghost function Amounts(lines: seq<Line>, kind: EntryType, from: int, to: int): map<int, int> {
    map i | 0 <= i < |lines| && lines[i].entry.kind == kind && from <= lines[i].at <= to :: lines[i].entry.amount
  }

  lemma OneAmountMore(init: seq<Line>, last: Line, kind: EntryType, from: int, to: int)
    ensures SumOver(Amounts(init + [last], kind, from, to), Same) == SumOver(Amounts(init, kind, from, to), Same)
      + if last.entry.kind == kind && from <= last.at <= to then last.entry.amount else 0
  {
    if last.entry.kind == kind && from <= last.at <= to {
      SumUpdate(Amounts(init, kind, from, to), Same, |init|, last.entry.amount);
      assert Amounts(init + [last], kind, from, to) == Amounts(init, kind, from, to)[|init| := last.entry.amount];
    } else {
      assert Amounts(init + [last], kind, from, to) == Amounts(init, kind, from, to);
    }
  }

  lemma {:induction false} TotalIsSum(lines: seq<Line>, kind: EntryType, from: int, to: int)
    ensures Total(Period(lines, from, to), kind) == SumOver(Amounts(lines, kind, from, to), Same)
  {
    if lines == [] {
      assert Amounts(lines, kind, from, to) == map[];
    } else {
      var init, last := lines[..|lines| - 1], lines[|lines| - 1];
      TotalIsSum(init, kind, from, to);
      assert lines == init + [last];
      OneAmountMore(init, last, kind, from, to);
      OneLineMore(init, last, from, to);
      TotalOfAppend(Period(init, from, to), last, kind);
      assert Period(init, from, to) + [] == Period(init, from, to);
    }
  }

  ghost predicate LatestBefore(lines: seq<Line>, from: int, i: nat) {
    i < |lines| && lines[i].at <= from && forall j :: i < j < |lines| ==> lines[j].at > from
  }

  ghost predicate AllAfter(lines: seq<Line>, from: int) {
    forall i :: 0 <= i < |lines| ==> lines[i].at > from
  }

  /** The balance after the latest line stamped at or before `from`, and zero when there is none. */
  ghost predicate IsOpening(lines: seq<Line>, from: int, opening: int) {
    || (AllAfter(lines, from) && opening == 0)
    || (exists i: nat :: LatestBefore(lines, from, i) && opening == lines[i].entry.balanceAfter)
  }

  lemma LaterLineKeepsOpening(init: seq<Line>, last: Line, from: int, opening: int)
    requires IsOpening(init, from, opening) && last.at > from
    ensures IsOpening(init + [last], from, opening)
  {
    if !AllAfter(init, from) {
      var k: nat :| LatestBefore(init, from, k) && opening == init[k].entry.balanceAfter;
      assert LatestBefore(init + [last], from, k);
    }
  }

  lemma {:induction false} OpeningIsLatest(lines: seq<Line>, from: int)
    ensures IsOpening(lines, from, OpeningBalance(lines, from))
  {
    if lines == [] {
      assert AllAfter(lines, from);
    } else {
      var init, last := lines[..|lines| - 1], lines[|lines| - 1];
      if last.at <= from {
        assert LatestBefore(lines, from, |lines| - 1);
      } else {
        OpeningIsLatest(init, from);
        LaterLineKeepsOpening(init, last, from, OpeningBalance(init, from));
        assert init + [last] == lines;
      }
    }
  }

  /** The lines of the period, both ends included, each once and in their order. */
  lemma {:induction false} PeriodIs(lines: seq<Line>, from: int, to: int)
    ensures forall line :: line in Period(lines, from, to) <==> line in lines && from <= line.at <= to
    ensures Ascending(lines) ==> Ascending(Period(lines, from, to))
  {
    if lines != [] {
      var init, last := lines[..|lines| - 1], lines[|lines| - 1];
      assert lines == init + [last];
      PeriodIs(init, from, to);
      if Ascending(lines) {
        AscendingInit(init, last);
        forall i | 0 <= i < |Period(init, from, to)| ensures Period(init, from, to)[i].at < last.at {
          assert Period(init, from, to)[i] in init;
        }
      }
    }
  }

  /** A statement lists the period's lines, opens with the latest balance at or before its start, closes with its last
      line's or the opening one, and totals credits and debits apart. */
  lemma StatementIs(lines: seq<Line>, from: int, to: int)
    ensures var s := GenerateStatement(lines, from, to);
      && (forall line :: line in s.entries <==> line in lines && from <= line.at <= to)
      && (Ascending(lines) ==> Ascending(s.entries))
      && IsOpening(lines, from, s.openingBalance)
      && s.closingBalance ==
           (if s.entries == [] then s.openingBalance else s.entries[|s.entries| - 1].entry.balanceAfter)
      && s.totalCredits == SumOver(Amounts(lines, CreditEntry, from, to), Same)
      && s.totalDebits == SumOver(Amounts(lines, DebitEntry, from, to), Same)
  {
    PeriodIs(lines, from, to);
    OpeningIsLatest(lines, from);
    TotalIsSum(lines, CreditEntry, from, to);
    TotalIsSum(lines, DebitEntry, from, to);
  }

  // ----- what the ledger guarantees about one wallet's lines -----

  /** Each entry carries on from the balance of the one before. */
  ghost predicate Chained(lines: seq<Line>) {
    forall i :: 0 <= i < |lines| ==> Follows(lines, i)
  }

  ghost predicate Follows(lines: seq<Line>, i: nat)
    requires i < |lines|
  {
    var e := lines[i].entry;
    e.balanceAfter == (if i == 0 then 0 else lines[i - 1].entry.balanceAfter) + SignedAmount(e.kind, e.amount)
  }

  /** The lines in the order of their createdAt, which are distinct. Nothing makes this the order the entries
      were posted in: a createdAt is its transaction's start, and a transaction may wait for the row's lock. */
  ghost predicate Ascending(lines: seq<Line>) {
    forall i, j :: 0 <= i < j < |lines| ==> lines[i].at < lines[j].at
  }

  /** One wallet's entries out of the whole ledger, stamped by `clock`. */
  function WalletLines(ledger: seq<LedgerEntry>, w: WalletId, clock: seq<int>): seq<Line>
    requires |clock| == |ledger|
  {
    if ledger == [] then []
    else
      var n := |ledger| - 1;
      WalletLines(ledger[..n], w, clock[..n]) + if ledger[n].walletId == w then [Line(ledger[n], clock[n])] else []
  }

  /** The ledger of every reachable store yields chained statement lines ending at the wallet's balance. */
  lemma {:induction false} LedgerLinesAreChained(ledger: seq<LedgerEntry>, w: WalletId, clock: seq<int>)
    requires |clock| == |ledger|
    requires forall i :: 0 <= i < |ledger| ==> ledger[i].balanceAfter == SignedSum(ledger[..i + 1], ledger[i].walletId)
    ensures var lines := WalletLines(ledger, w, clock);
      Chained(lines) && SignedSum(ledger, w) == if lines == [] then 0 else lines[|lines| - 1].entry.balanceAfter
  {
    if ledger != [] {
      var n := |ledger| - 1;
      forall i | 0 <= i < n
        ensures ledger[..n][i].balanceAfter == SignedSum(ledger[..n][..i + 1], ledger[..n][i].walletId)
      {
        assert ledger[..n][..i + 1] == ledger[..i + 1];
      }
      LedgerLinesAreChained(ledger[..n], w, clock[..n]);
      assert ledger[..n + 1] == ledger;
      var before := WalletLines(ledger[..n], w, clock[..n]);
      forall i | 0 <= i < |WalletLines(ledger, w, clock)| ensures Follows(WalletLines(ledger, w, clock), i) {
        if i < |before| { assert Follows(before, i); }
      }
    }
  }

  lemma ReachableStatementLines(s: Store, w: WalletId, clock: seq<int>)
    requires Books(s) && w in s.wallets && |clock| == |s.ledger|
    ensures Chained(WalletLines(s.ledger, w, clock))
    ensures var lines := WalletLines(s.ledger, w, clock);
      s.wallets[w].balance == if lines == [] then 0 else lines[|lines| - 1].entry.balanceAfter
  {
    forall i | 0 <= i < |s.ledger|
      ensures s.ledger[i].balanceAfter == SignedSum(s.ledger[..i + 1], s.ledger[i].walletId)
    {
      assert EntryInOrder(s, i);
    }
    LedgerLinesAreChained(s.ledger, w, clock);
    assert Balanced(s, w);
  }

  // ----- statements chain -----

  lemma {:induction false} NothingInPeriod(lines: seq<Line>, from: int, to: int)
    requires forall i :: 0 <= i < |lines| ==> lines[i].at < from
    ensures Period(lines, from, to) == []
  {
    if lines != [] { NothingInPeriod(lines[..|lines| - 1], from, to); }
  }

  /** The closing balance of [a, b] is the opening balance of any statement that starts at b. */
  lemma {:induction false} StatementsChain(lines: seq<Line>, a: int, b: int, c: int)
    requires Ascending(lines) && a <= b
    ensures GenerateStatement(lines, a, b).closingBalance == GenerateStatement(lines, b, c).openingBalance
  {
    if lines != [] {
      var init, last := lines[..|lines| - 1], lines[|lines| - 1];
      if last.at > b {
        StatementsChain(init, a, b, c);
      } else if last.at < a {
        NothingInPeriod(init, a, b);
      }
    }
  }

  // ----- statements add up, except for entries at the start -----

  /** The signed amounts of the entries stamped exactly `from`. */
  function StampedAt(lines: seq<Line>, from: int): int {
    if lines == [] then 0
    else
      var last := lines[|lines| - 1];
      StampedAt(lines[..|lines| - 1], from)
      + if last.at == from then SignedAmount(last.entry.kind, last.entry.amount) else 0
  }

  lemma {:induction false} NothingStamped(lines: seq<Line>, from: int)
    requires forall i :: 0 <= i < |lines| ==> lines[i].at != from
    ensures StampedAt(lines, from) == 0
  {
    if lines != [] { NothingStamped(lines[..|lines| - 1], from); }
  }

  lemma TotalOfAppend(lines: seq<Line>, last: Line, kind: EntryType)
    ensures Total(lines + [last], kind) == Total(lines, kind) + if last.entry.kind == kind then last.entry.amount else 0
  {
    assert (lines + [last])[..|lines|] == lines;
  }

  lemma OneLineMore(init: seq<Line>, last: Line, from: int, to: int)
    ensures Period(init + [last], from, to) == Period(init, from, to) + if from <= last.at <= to then [last] else []
    ensures OpeningBalance(init + [last], from) ==
      if last.at <= from then last.entry.balanceAfter else OpeningBalance(init, from)
    ensures StampedAt(init + [last], from) == StampedAt(init, from) +
      if last.at == from then SignedAmount(last.entry.kind, last.entry.amount) else 0
  {
    assert (init + [last])[..|init|] == init;
  }

  lemma AscendingInit(init: seq<Line>, last: Line)
    requires Ascending(init + [last])
    ensures Ascending(init) && forall i :: 0 <= i < |init| ==> init[i].at < last.at
  {
    var lines := init + [last];
    forall i | 0 <= i < |init| ensures init[i].at < last.at { assert lines[i].at < lines[|init|].at; }
    forall i, j | 0 <= i < j < |init| ensures init[i].at < init[j].at { assert lines[i].at < lines[j].at; }
  }

  lemma {:induction false} GapOfLastLine(init: seq<Line>, last: Line, from: int, to: int)
    requires Ascending(init + [last]) && Chained(init + [last]) && from <= last.at <= to
    requires var s := GenerateStatement(init, from, to);
      s.openingBalance + s.totalCredits - s.totalDebits == s.closingBalance + StampedAt(init, from)
    ensures var s := GenerateStatement(init + [last], from, to);
      s.openingBalance + s.totalCredits - s.totalDebits == s.closingBalance + StampedAt(init + [last], from)
  {
    assert Follows(init + [last], |init|);
    AscendingInit(init, last);
    OneLineMore(init, last, from, to);
    TotalOfAppend(Period(init, from, to), last, CreditEntry);
    TotalOfAppend(Period(init, from, to), last, DebitEntry);
    LastBalance(init, from, to);
    if last.at == from {
      NothingInPeriod(init, from, to);
      NothingStamped(init, from);
    }
  }

  /** As written an entry stamped exactly `from` is counted on both sides: the statement is off by its amount. */
  lemma {:induction false} StatementGap(lines: seq<Line>, from: int, to: int)
    requires Ascending(lines) && Chained(lines) && from <= to
    ensures var s := GenerateStatement(lines, from, to);
      s.openingBalance + s.totalCredits - s.totalDebits == s.closingBalance + StampedAt(lines, from)
  {
    if lines != [] {
      var init, last := lines[..|lines| - 1], lines[|lines| - 1];
      forall i | 0 <= i < |init| ensures Follows(init, i) { assert Follows(lines, i); }
      StatementGap(init, from, to);
      if last.at < from {
        NothingInPeriod(init, from, to);
        NothingStamped(init, from);
      } else if last.at > to {
        assert Period(lines, from, to) == Period(init, from, to);
      } else {
        assert init + [last] == lines;
        GapOfLastLine(init, last, from, to);
      }
    }
  }

  /** Up to the end of the lines, the closing balance is the last balance. */
  lemma {:induction false} LastBalance(lines: seq<Line>, from: int, to: int)
    requires forall i :: 0 <= i < |lines| ==> lines[i].at <= to
    requires Ascending(lines)
    ensures GenerateStatement(lines, from, to).closingBalance ==
      if lines == [] then 0 else lines[|lines| - 1].entry.balanceAfter
  {
    if lines != [] && lines[|lines| - 1].at < from {
      NothingInPeriod(lines, from, to);
    }
  }

  /** Opening plus credits minus debits is the closing balance iff no entry is stamped exactly `from`. */
  lemma {:induction false} StatementAddsUpIff(lines: seq<Line>, from: int, to: int)
    requires Ascending(lines) && Chained(lines) && from <= to
    requires forall i :: 0 <= i < |lines| ==> lines[i].entry.amount > 0
    ensures var s := GenerateStatement(lines, from, to);
      s.openingBalance + s.totalCredits - s.totalDebits == s.closingBalance
      <==> forall i :: 0 <= i < |lines| ==> lines[i].at != from
  {
    StatementGap(lines, from, to);
    if i :| 0 <= i < |lines| && lines[i].at == from {
      OneStamped(lines, from, i);
    } else {
      NothingStamped(lines, from);
    }
  }

  // ----- exactly when statements are right: the order of the stamps is the order of the postings -----

  /** Every statement is off by no more than the amount stamped at its start. */
  ghost predicate StatementsAreRight(lines: seq<Line>) {
    forall from: int, to: int :: from <= to ==> Right(lines, from, to)
  }

  predicate Right(lines: seq<Line>, from: int, to: int) {
    var s := GenerateStatement(lines, from, to);
    s.openingBalance + s.totalCredits - s.totalDebits == s.closingBalance + StampedAt(lines, from)
  }

  /** What comes after the period does not matter. */
  lemma {:induction false} LaterLinesDoNotMatter(lines: seq<Line>, k: nat, from: int, to: int)
    requires k <= |lines| && from <= to && forall i :: k <= i < |lines| ==> lines[i].at > to
    ensures GenerateStatement(lines, from, to) == GenerateStatement(lines[..k], from, to)
    ensures StampedAt(lines, from) == StampedAt(lines[..k], from)
  {
    if k < |lines| {
      var init := lines[..|lines| - 1];
      LaterLinesDoNotMatter(init, k, from, to);
      assert init[..k] == lines[..k] && Period(lines, from, to) == Period(init, from, to);
    } else {
      assert lines[..k] == lines;
    }
  }

  /** The statement of two neighbouring lines. */
  lemma NeighboursInPeriod(init: seq<Line>, first: Line, second: Line)
    requires first.at < second.at && forall i :: 0 <= i < |init| ==> init[i].at < first.at
    ensures var lines := init + [first] + [second]; var s := GenerateStatement(lines, first.at, second.at);
      && s.entries == [first, second] && s.openingBalance == first.entry.balanceAfter
      && StampedAt(lines, first.at) == SignedAmount(first.entry.kind, first.entry.amount)
  {
    NothingInPeriod(init, first.at, second.at);
    NothingStamped(init, first.at);
    OneLineMore(init, first, first.at, second.at);
    OneLineMore(init + [first], second, first.at, second.at);
  }

  lemma FirstInPeriod(first: Line)
    ensures var s := GenerateStatement([first], first.at - 1, first.at);
      s.entries == [first] && s.openingBalance == 0 && StampedAt([first], first.at - 1) == 0
  {
    OneLineMore([], first, first.at - 1, first.at);
    assert [] + [first] == [first];
  }

  lemma TwoTotals(first: Line, second: Line)
    ensures Total([first, second], CreditEntry) - Total([first, second], DebitEntry)
         == SignedAmount(first.entry.kind, first.entry.amount) + SignedAmount(second.entry.kind, second.entry.amount)
    ensures Total([first], CreditEntry) - Total([first], DebitEntry)
         == SignedAmount(first.entry.kind, first.entry.amount)
  {
    assert [] + [first] == [first] && [first] + [second] == [first, second];
    TotalOfAppend([], first, CreditEntry);
    TotalOfAppend([], first, DebitEntry);
    TotalOfAppend([first], second, CreditEntry);
    TotalOfAppend([first], second, DebitEntry);
  }

  lemma PrefixAscends(lines: seq<Line>, k: nat)
    requires Ascending(lines) && k <= |lines|
    ensures Ascending(lines[..k])
    ensures forall i :: k <= i < |lines| && k > 0 ==> lines[i].at > lines[k - 1].at
  {
    forall i, j | 0 <= i < j < k ensures lines[..k][i].at < lines[..k][j].at { assert lines[i].at < lines[j].at; }
  }

  lemma RightStatementsFollow(lines: seq<Line>, k: nat)
    requires Ascending(lines) && StatementsAreRight(lines) && k < |lines|
    ensures Follows(lines, k)
  {
    var second := lines[k];
    PrefixAscends(lines, k + 1);
    if k == 0 {
      assert lines[..1] == [second];
      LaterLinesDoNotMatter(lines, 1, second.at - 1, second.at);
      FirstInPeriod(second);
      TwoTotals(second, second);
      assert Right(lines, second.at - 1, second.at);
    } else {
      var first := lines[k - 1];
      assert lines[..k + 1] == lines[..k - 1] + [first] + [second];
      forall i | 0 <= i < k - 1 ensures lines[i].at < first.at { assert lines[i].at < lines[k - 1].at; }
      assert first.at < second.at;
      LaterLinesDoNotMatter(lines, k + 1, first.at, second.at);
      NeighboursInPeriod(lines[..k - 1], first, second);
      TwoTotals(first, second);
      assert Right(lines, first.at, second.at);
    }
  }

  /** With distinct stamps, every statement is right, but for what is stamped at its start, exactly when the
      lines in the order of their stamps carry on from each other's balances. */
  lemma StatementsAreRightIff(lines: seq<Line>)
    requires Ascending(lines)
    ensures StatementsAreRight(lines) <==> Chained(lines)
  {
    if Chained(lines) {
      forall from: int, to: int | from <= to ensures Right(lines, from, to) { StatementGap(lines, from, to); }
    } else if StatementsAreRight(lines) {
      forall k | 0 <= k < |lines| ensures Follows(lines, k) { RightStatementsFollow(lines, k); }
    }
  }

  lemma {:induction false} OneStamped(lines: seq<Line>, from: int, i: nat)
    requires Ascending(lines) && i < |lines| && lines[i].at == from
    ensures StampedAt(lines, from) == SignedAmount(lines[i].entry.kind, lines[i].entry.amount)
  {
    var init := lines[..|lines| - 1];
    if i == |init| {
      NothingStamped(init, from);
    } else {
      OneStamped(init, from, i);
    }
  }

  // ----- the user's summary -----

  datatype Figures = Figures(count: nat, volume: int, fees: int)

  datatype Summary = Summary(
    totalTransfers: nat, totalVolume: int, totalFees: int,
    byStatus: map<TransferStatus, nat>, byType: map<TransferType, nat>, byCurrency: map<string, Figures>)

  function CountStatus(rows: seq<Transfer>, status: TransferStatus): nat {
    if rows == [] then 0
    else CountStatus(rows[..|rows| - 1], status) + if rows[|rows| - 1].status == status then 1 else 0
  }

  function CountType(rows: seq<Transfer>, kind: TransferType): nat {
    if rows == [] then 0 else CountType(rows[..|rows| - 1], kind) + if rows[|rows| - 1].kind == kind then 1 else 0
  }

  function FiguresOf(rows: seq<Transfer>, currency: string): Figures {
    if rows == [] then Figures(0, 0, 0)
    else
      var f := FiguresOf(rows[..|rows| - 1], currency);
      var t := rows[|rows| - 1];
      if t.currency == currency then Figures(f.count + 1, f.volume + t.amount, f.fees + t.fee) else f
  }

  function Volume(f: Figures): int { f.volume }

  function Fees(f: Figures): int { f.fees }

  function Count(n: nat): int { n }

  function FigureCount(f: Figures): int { f.count }

  /** The groups that occur, each with its count, adding up to the number of rows. */
  ghost predicate StatusTally(m: map<TransferStatus, nat>, rows: seq<Transfer>) {
    && (forall x :: x in m <==> CountStatus(rows, x) > 0)
    && (forall x :: x in m ==> m[x] == CountStatus(rows, x))
    && SumOver(m, Count) == |rows|
  }

  ghost predicate TypeTally(m: map<TransferType, nat>, rows: seq<Transfer>) {
    && (forall x :: x in m <==> CountType(rows, x) > 0)
    && (forall x :: x in m ==> m[x] == CountType(rows, x))
    && SumOver(m, Count) == |rows|
  }

  /** The same for currencies, whose volumes and fees add up to the totals. */
  ghost predicate CurrencyTally(m: map<string, Figures>, rows: seq<Transfer>, volume: int, fees: int) {
    && (forall x :: x in m ==> m[x] == FiguresOf(rows, x) && m[x].count > 0)
    && (forall x :: x !in m ==> FiguresOf(rows, x) == Figures(0, 0, 0))
    && SumOver(m, FigureCount) == |rows| && SumOver(m, Volume) == volume && SumOver(m, Fees) == fees
  }

  function Bump<K>(m: map<K, nat>, k: K): map<K, nat> {
    m[k := (if k in m then m[k] else 0) + 1]
  }

  function Added(f: Figures, t: Transfer): Figures {
    Figures(f.count + 1, f.volume + t.amount, f.fees + t.fee)
  }

  lemma StatusTallied(m: map<TransferStatus, nat>, rows: seq<Transfer>, t: Transfer)
    requires StatusTally(m, rows)
    ensures StatusTally(Bump(m, t.status), rows + [t])
  {
    assert (rows + [t])[..|rows|] == rows;
    SumUpdate(m, Count, t.status, (if t.status in m then m[t.status] else 0) + 1);
  }

  lemma TypeTallied(m: map<TransferType, nat>, rows: seq<Transfer>, t: Transfer)
    requires TypeTally(m, rows)
    ensures TypeTally(Bump(m, t.kind), rows + [t])
  {
    assert (rows + [t])[..|rows|] == rows;
    SumUpdate(m, Count, t.kind, (if t.kind in m then m[t.kind] else 0) + 1);
  }

  lemma CurrencyTallied(m: map<string, Figures>, rows: seq<Transfer>, volume: int, fees: int, t: Transfer)
    requires CurrencyTally(m, rows, volume, fees)
    ensures CurrencyTally(m[t.currency := Added(if t.currency in m then m[t.currency] else Figures(0, 0, 0), t)],
                          rows + [t], volume + t.amount, fees + t.fee)
  {
    assert (rows + [t])[..|rows|] == rows;
    var f' := Added(if t.currency in m then m[t.currency] else Figures(0, 0, 0), t);
    SumUpdate(m, FigureCount, t.currency, f');
    SumUpdate(m, Volume, t.currency, f');
    SumUpdate(m, Fees, t.currency, f');
  }

  // The rows of one status, type or currency, and all of them, by position.

  ghost function WithStatus(rows: seq<Transfer>, status: TransferStatus): set<int> {
    set i | 0 <= i < |rows| && rows[i].status == status
  }

  ghost function WithType(rows: seq<Transfer>, kind: TransferType): set<int> {
    set i | 0 <= i < |rows| && rows[i].kind == kind
  }

  ghost function In(rows: seq<Transfer>, currency: string): map<int, Transfer> {
    map i | 0 <= i < |rows| && rows[i].currency == currency :: rows[i]
  }

  ghost function All(rows: seq<Transfer>): map<int, Transfer> {
    map i | 0 <= i < |rows| :: rows[i]
  }

  function AmountOf(t: Transfer): int { t.amount }

  function FeeOf(t: Transfer): int { t.fee }

  lemma OneStatusMore(rows: seq<Transfer>, t: Transfer, status: TransferStatus)
    ensures |WithStatus(rows + [t], status)| == |WithStatus(rows, status)| + if t.status == status then 1 else 0
  {
    assert WithStatus(rows + [t], status)
        == if t.status == status then WithStatus(rows, status) + {|rows|} else WithStatus(rows, status);
  }

  lemma {:induction false} StatusesCounted(rows: seq<Transfer>, status: TransferStatus)
    ensures CountStatus(rows, status) == |WithStatus(rows, status)|
  {
    if rows != [] {
      StatusesCounted(rows[..|rows| - 1], status);
      OneStatusMore(rows[..|rows| - 1], rows[|rows| - 1], status);
      assert rows[..|rows| - 1] + [rows[|rows| - 1]] == rows;
    }
  }

  lemma OneTypeMore(rows: seq<Transfer>, t: Transfer, kind: TransferType)
    ensures |WithType(rows + [t], kind)| == |WithType(rows, kind)| + if t.kind == kind then 1 else 0
  {
    assert WithType(rows + [t], kind)
        == if t.kind == kind then WithType(rows, kind) + {|rows|} else WithType(rows, kind);
  }

  lemma {:induction false} TypesCounted(rows: seq<Transfer>, kind: TransferType)
    ensures CountType(rows, kind) == |WithType(rows, kind)|
  {
    if rows != [] {
      TypesCounted(rows[..|rows| - 1], kind);
      OneTypeMore(rows[..|rows| - 1], rows[|rows| - 1], kind);
      assert rows[..|rows| - 1] + [rows[|rows| - 1]] == rows;
    }
  }

  ghost function SummedIn(rows: seq<Transfer>, currency: string): Figures {
    Figures(|In(rows, currency)|, SumOver(In(rows, currency), AmountOf), SumOver(In(rows, currency), FeeOf))
  }

  lemma OneInMore(rows: seq<Transfer>, t: Transfer, currency: string)
    ensures var f := SummedIn(rows, currency);
      SummedIn(rows + [t], currency) ==
        if t.currency == currency then Figures(f.count + 1, f.volume + t.amount, f.fees + t.fee) else f
  {
    var mine := In(rows, currency);
    if t.currency == currency {
      SumUpdate(mine, AmountOf, |rows|, t);
      SumUpdate(mine, FeeOf, |rows|, t);
      assert In(rows + [t], currency) == mine[|rows| := t];
      assert mine[|rows| := t].Keys == mine.Keys + {|rows|} && |mine.Keys + {|rows|}| == |mine.Keys| + 1;
    } else {
      assert In(rows + [t], currency) == mine;
    }
  }

  lemma {:induction false} CurrenciesSummed(rows: seq<Transfer>, currency: string)
    ensures FiguresOf(rows, currency) == SummedIn(rows, currency)
  {
    if rows == [] {
      assert In(rows, currency) == map[];
    } else {
      CurrenciesSummed(rows[..|rows| - 1], currency);
      OneInMore(rows[..|rows| - 1], rows[|rows| - 1], currency);
      assert rows[..|rows| - 1] + [rows[|rows| - 1]] == rows;
    }
  }

  /** Counts and sums said by position. */
  ghost predicate SummaryIs(s: Summary, rows: seq<Transfer>) {
    && s.totalTransfers == |rows|
    && s.totalVolume == SumOver(All(rows), AmountOf) && s.totalFees == SumOver(All(rows), FeeOf)
    && (forall x :: x in s.byStatus ==> s.byStatus[x] == |WithStatus(rows, x)|)
    && (forall x :: x in s.byType ==> s.byType[x] == |WithType(rows, x)|)
    && (forall x :: x in s.byCurrency ==> s.byCurrency[x] == SummedIn(rows, x))
  }

  ghost predicate Totalled(rows: seq<Transfer>, volume: int, fees: int) {
    volume == SumOver(All(rows), AmountOf) && fees == SumOver(All(rows), FeeOf)
  }

  lemma OneTransferMore(byStatus: map<TransferStatus, nat>, byType: map<TransferType, nat>,
                        byCurrency: map<string, Figures>, rows: seq<Transfer>, volume: int, fees: int, t: Transfer)
    requires StatusTally(byStatus, rows) && TypeTally(byType, rows) && CurrencyTally(byCurrency, rows, volume, fees)
    requires Totalled(rows, volume, fees)
    ensures StatusTally(Bump(byStatus, t.status), rows + [t]) && TypeTally(Bump(byType, t.kind), rows + [t])
    ensures var figures := if t.currency in byCurrency then byCurrency[t.currency] else Figures(0, 0, 0);
      CurrencyTally(byCurrency[t.currency := Added(figures, t)], rows + [t], volume + t.amount, fees + t.fee)
    ensures Totalled(rows + [t], volume + t.amount, fees + t.fee)
  {
    StatusTallied(byStatus, rows, t);
    TypeTallied(byType, rows, t);
    CurrencyTallied(byCurrency, rows, volume, fees, t);
    OneRowMore(rows, t);
  }

  lemma TalliesAreSums(s: Summary, rows: seq<Transfer>)
    requires StatusTally(s.byStatus, rows) && TypeTally(s.byType, rows) && s.totalTransfers == |rows|
    requires CurrencyTally(s.byCurrency, rows, s.totalVolume, s.totalFees)
    requires Totalled(rows, s.totalVolume, s.totalFees)
    ensures SummaryIs(s, rows)
  {
    forall x | x in s.byStatus ensures s.byStatus[x] == |WithStatus(rows, x)| { StatusesCounted(rows, x); }
    forall x | x in s.byType ensures s.byType[x] == |WithType(rows, x)| { TypesCounted(rows, x); }
    forall x | x in s.byCurrency ensures s.byCurrency[x] == SummedIn(rows, x) { CurrenciesSummed(rows, x); }
  }

  lemma OneRowMore(rows: seq<Transfer>, t: Transfer)
    ensures SumOver(All(rows + [t]), AmountOf) == SumOver(All(rows), AmountOf) + t.amount
    ensures SumOver(All(rows + [t]), FeeOf) == SumOver(All(rows), FeeOf) + t.fee
  {
    SumUpdate(All(rows), AmountOf, |rows|, t);
    SumUpdate(All(rows), FeeOf, |rows|, t);
    assert All(rows + [t]) == All(rows)[|rows| := t];
  }

  method GetUserSummary(transfers: seq<Transfer>) returns (s: Summary)
    ensures s.totalTransfers == |transfers|
    ensures SummaryIs(s, transfers)
    ensures StatusTally(s.byStatus, transfers) && TypeTally(s.byType, transfers)
    ensures CurrencyTally(s.byCurrency, transfers, s.totalVolume, s.totalFees)
  {
    var byStatus: map<TransferStatus, nat> := map[];
    var byType: map<TransferType, nat> := map[];
    var byCurrency: map<string, Figures> := map[];
    var totalVolume, totalFees := 0, 0;
    for k := 0 to |transfers|
      invariant StatusTally(byStatus, transfers[..k]) && TypeTally(byType, transfers[..k])
      invariant CurrencyTally(byCurrency, transfers[..k], totalVolume, totalFees)
      invariant Totalled(transfers[..k], totalVolume, totalFees)
    {
      var t := transfers[k];
      assert transfers[..k + 1] == transfers[..k] + [t];
      OneTransferMore(byStatus, byType, byCurrency, transfers[..k], totalVolume, totalFees, t);
      byStatus := Bump(byStatus, t.status);
      byType := Bump(byType, t.kind);
      var figures := if t.currency in byCurrency then byCurrency[t.currency] else Figures(0, 0, 0);
      byCurrency := byCurrency[t.currency := Added(figures, t)];
      totalVolume := totalVolume + t.amount;
      totalFees := totalFees + t.fee;
    }
    assert transfers[..|transfers|] == transfers;
    s := Summary(|transfers|, totalVolume, totalFees, byStatus, byType, byCurrency);
    TalliesAreSums(s, transfers);
  }
}
