/**
 What every committed change keeps: balances equal their ledger, each transfer row has
 exactly the entries its kind calls for, and money is conserved per wallet currency.
 */
module LedgerInvariants {
  import opened Wrappers
  import opened MapSums
  import opened Ledger

  // ----- the ledger is the source of truth -----

  ghost predicate Balanced(s: Store, w: WalletId)
    requires w in s.wallets
  {
    && s.wallets[w].balance == SignedSum(s.ledger, w)
    && 0 <= s.wallets[w].held <= s.wallets[w].balance
  }

  /** Entry i carries the balance its wallet had once entries 0..i were posted. */
  ghost predicate EntryInOrder(s: Store, i: nat)
    requires i < |s.ledger|
  {
    var e := s.ledger[i];
    e.walletId in s.wallets && e.amount > 0 && e.balanceAfter == SignedSum(s.ledger[..i + 1], e.walletId)
  }

  ghost predicate Books(s: Store) {
    && (forall w :: w in s.wallets ==> Balanced(s, w))
    && (forall i :: 0 <= i < |s.ledger| ==> EntryInOrder(s, i))
  }

  lemma PrefixOfAppend<T>(l: seq<T>, e: T)
    ensures (l + [e])[..|l|] == l
    ensures forall i :: 0 <= i <= |l| ==> (l + [e])[..i] == l[..i]
  {
  }

  lemma {:induction false} NoEntriesNoSum(ledger: seq<LedgerEntry>, w: WalletId)
    requires forall i :: 0 <= i < |ledger| ==> ledger[i].walletId != w
    ensures SignedSum(ledger, w) == 0
  {
    if ledger != [] {
      NoEntriesNoSum(ledger[..|ledger| - 1], w);
    }
  }

  lemma PostKeepsBooks(s: Store, p: Posting)
    requires Books(s) && Post(s, p).Success?
    ensures Books(Post(s, p).value)
  {
    var s' := Post(s, p).value;
    var e := s'.ledger[|s.ledger|];
    assert s'.ledger == s.ledger + [e];
    PrefixOfAppend(s.ledger, e);
    assert Balanced(s, p.walletId);
    forall w | w in s'.wallets ensures Balanced(s', w) {
      assert Balanced(s, w);
    }
    assert s'.ledger[..|s.ledger| + 1] == s'.ledger;
    forall i | 0 <= i < |s'.ledger| ensures EntryInOrder(s', i) {
      if i < |s.ledger| {
        assert EntryInOrder(s, i);
        PrefixOfAppend(s.ledger, e);
        assert s'.ledger[..i + 1] == s.ledger[..i + 1];
      }
    }
  }

  // ----- each row has exactly its entries -----

  function InternalLegs(row: Transfer): seq<Leg>
    requires row.source.Some? && row.destination.Some?
  {
    [Leg(row.source.value, DebitEntry, InternalDebit, row.amount + row.fee),
     Leg(row.destination.value, CreditEntry, InternalCredit, row.amount)]
  }

  function WithdrawalLegs(row: Transfer): seq<Leg>
    requires row.source.Some?
  {
    [Leg(row.source.value, DebitEntry, WithdrawalEntry, row.amount + row.fee)]
  }

  function DepositLeg(row: Transfer): Leg
    requires row.destination.Some?
  {
    Leg(row.destination.value, CreditEntry, DepositEntry, row.amount - row.fee)
  }

  /** Internal: COMPLETED with one debit and one credit. Withdrawal: one debit, whatever its status.
      Deposit: nothing but credits of amount - fee (how many is Settlement's subject). */
  ghost predicate RowSettled(s: Store, row: Transfer, legs: seq<Leg>) {
    match row.kind
    case InternalTransfer =>
      && row.status == Completed
      && row.source.Some? && row.destination.Some? && row.source != row.destination
      && row.source.value in s.wallets && row.destination.value in s.wallets
      && s.wallets[row.source.value].currency == s.wallets[row.destination.value].currency
      && legs == InternalLegs(row)
    case Withdrawal =>
      row.source.Some? && row.source.value in s.wallets && legs == WithdrawalLegs(row)
    case Deposit =>
      && row.destination.Some? && row.destination.value in s.wallets
      && forall i :: 0 <= i < |legs| ==> legs[i] == DepositLeg(row)
  }

  ghost predicate Atomic(s: Store) {
    && (forall id :: id in s.transfers ==> RowSettled(s, s.transfers[id], Legs(s.ledger, id)))
    && (forall i :: 0 <= i < |s.ledger| ==> s.ledger[i].transferId in s.transfers)
  }

  lemma {:induction false} NoEntriesNoLegs(ledger: seq<LedgerEntry>, id: TransferId)
    requires forall i :: 0 <= i < |ledger| ==> ledger[i].transferId != id
    ensures Legs(ledger, id) == []
  {
    if ledger != [] {
      NoEntriesNoLegs(ledger[..|ledger| - 1], id);
    }
  }

  lemma PostLegs(s: Store, p: Posting, id: TransferId)
    requires Post(s, p).Success?
    ensures Legs(Post(s, p).value.ledger, id)
         == Legs(s.ledger, id) + if p.transferId == id then [Leg(p.walletId, p.kind, p.category, p.amount)] else []
  {
    var e := EntryFor(p, Moved(s.wallets[p.walletId].balance, p));
    PrefixOfAppend(s.ledger, e);
  }

  /** The entries a request adds for transfer `id`: all its postings carry its own transfer id. */
  function NewLegs(r: Request, id: TransferId): seq<Leg> {
    if id != r.transferId then []
    else match r
      case InternalRequest(_, _, source, destination, amount, fee, _) =>
        [Leg(source, DebitEntry, InternalDebit, amount + fee), Leg(destination, CreditEntry, InternalCredit, amount)]
      case WithdrawalRequest(_, _, source, amount, fee, _) =>
        [Leg(source, DebitEntry, WithdrawalEntry, amount + fee)]
      case DepositCredit(_, destination, amount, fee) =>
        [Leg(destination, CreditEntry, DepositEntry, amount - fee)]
  }

  lemma InternalLegsAdded(s: Store, r: Request, id: TransferId)
    requires r.InternalRequest? && Execute(s, r).Success?
    ensures Legs(Execute(s, r).value.ledger, id) == Legs(s.ledger, id) + NewLegs(r, id)
  {
    var inserted := InsertTransfer(s, r.transferId, InternalRow(r, Processing));
    PostLegs(inserted, DebitPosting(r), id);
    PostLegs(Post(inserted, DebitPosting(r)).value, CreditPosting(r), id);
  }

  lemma ExecuteLegs(s: Store, r: Request, id: TransferId)
    requires Execute(s, r).Success?
    ensures Legs(Execute(s, r).value.ledger, id) == Legs(s.ledger, id) + NewLegs(r, id)
  {
    match r
    case InternalRequest(_, _, _, _, _, _, _) => InternalLegsAdded(s, r, id);
    case WithdrawalRequest(_, _, _, _, _, _) =>
      PostLegs(InsertTransfer(s, r.transferId, WithdrawalRow(r)), DebitPosting(r), id);
    case DepositCredit(_, _, _, _) =>
      PostLegs(s, CreditPosting(r), id);
  }

  /** Wallet rows are never deleted and keep their owner, currency and hold. */
  ghost predicate WalletsPersist(s: Store, s': Store) {
    forall w :: w in s.wallets ==>
      && w in s'.wallets && s'.wallets[w].userId == s.wallets[w].userId
      && s'.wallets[w].currency == s.wallets[w].currency && s'.wallets[w].held == s.wallets[w].held
  }

  /** The rows after a request commits: its own row in its final status, every other row as it was. */
  ghost predicate TablesAfter(s: Store, r: Request, s': Store) {
    && s'.wallets.Keys == s.wallets.Keys && WalletsPersist(s, s')
    && s.ledger <= s'.ledger
    && (forall i :: |s.ledger| <= i < |s'.ledger| ==> s'.ledger[i].transferId == r.transferId)
    && (match r
        case InternalRequest(id, _, _, _, _, _, _) => s'.transfers == s.transfers[id := InternalRow(r, Completed)]
        case WithdrawalRequest(id, _, _, _, _, _) => s'.transfers == s.transfers[id := WithdrawalRow(r)]
        case DepositCredit(id, _, _, _) =>
          s'.transfers == SetStatus(s, id, Completed).transfers)
  }

  lemma ExecuteTables(s: Store, r: Request)
    requires Execute(s, r).Success?
    ensures TablesAfter(s, r, Execute(s, r).value)
  {
  }

  // ----- money is conserved per wallet currency -----

  function BalanceIn(c: Currency): Wallet -> int {
    (w: Wallet) => if w.currency == c then w.balance else 0
  }

  predicate ChargedIn(wallets: map<WalletId, Wallet>, c: Currency, t: Transfer) {
    && t.kind == InternalTransfer && t.status == Completed
    && t.source.Some? && t.source.value in wallets && wallets[t.source.value].currency == c
  }

  function FeeIn(wallets: map<WalletId, Wallet>, c: Currency): Transfer -> int {
    (t: Transfer) => if ChargedIn(wallets, c, t) then t.fee else 0
  }

  ghost function TotalBalance(s: Store, c: Currency): int {
    SumOver(s.wallets, BalanceIn(c))
  }

  ghost function TotalInternalFees(s: Store, c: Currency): int {
    SumOver(s.transfers, FeeIn(s.wallets, c))
  }

  /** Balances = deposit credits - withdrawal debits - fees of completed internal transfers. */
  ghost predicate Conserved(s: Store, c: Currency) {
    TotalBalance(s, c)
      == CategoryTotal(s.ledger, s.wallets, DepositEntry, c)
       - CategoryTotal(s.ledger, s.wallets, WithdrawalEntry, c)
       - TotalInternalFees(s, c)
  }

  lemma {:induction false} CategoryTotalStable(ledger: seq<LedgerEntry>,
                                               ws: map<WalletId, Wallet>, ws': map<WalletId, Wallet>,
                                               category: Category, c: Currency)
    requires forall w :: w in ws ==> w in ws' && ws'[w].currency == ws[w].currency
    requires forall i :: 0 <= i < |ledger| ==> ledger[i].walletId in ws
    ensures CategoryTotal(ledger, ws, category, c) == CategoryTotal(ledger, ws', category, c)
  {
    if ledger != [] {
      CategoryTotalStable(ledger[..|ledger| - 1], ws, ws', category, c);
    }
  }

  lemma FeesStable(s: Store, ws': map<WalletId, Wallet>, c: Currency)
    requires Atomic(s)
    requires forall w :: w in s.wallets ==> w in ws' && ws'[w].currency == s.wallets[w].currency
    ensures SumOver(s.transfers, FeeIn(ws', c)) == TotalInternalFees(s, c)
  {
    forall id | id in s.transfers ensures FeeIn(ws', c)(s.transfers[id]) == FeeIn(s.wallets, c)(s.transfers[id]) {
      assert RowSettled(s, s.transfers[id], Legs(s.ledger, id));
    }
    SumCongruence(s.transfers, FeeIn(ws', c), FeeIn(s.wallets, c));
  }

  /** One posting moves the currency's total by its signed amount, and its category's total by its amount. */
  lemma PostTotals(s: Store, p: Posting, c: Currency, category: Category)
    requires Books(s) && Post(s, p).Success?
    ensures var s' := Post(s, p).value;
      var here := s.wallets[p.walletId].currency == c;
      && TotalBalance(s', c) == TotalBalance(s, c) + (if here then SignedAmount(p.kind, p.amount) else 0)
      && CategoryTotal(s'.ledger, s'.wallets, category, c)
         == CategoryTotal(s.ledger, s.wallets, category, c) + (if here && p.category == category then p.amount else 0)
  {
    var s' := Post(s, p).value;
    var wallet := s.wallets[p.walletId];
    SumUpdate(s.wallets, BalanceIn(c), p.walletId, wallet.(balance := Moved(wallet.balance, p)));
    var e := EntryFor(p, Moved(wallet.balance, p));
    PrefixOfAppend(s.ledger, e);
    forall i | 0 <= i < |s.ledger| ensures s.ledger[i].walletId in s.wallets {
      assert EntryInOrder(s, i);
    }
    CategoryTotalStable(s.ledger, s.wallets, s'.wallets, category, c);
  }

  // ----- the store invariant and the events that keep it -----

  ghost predicate StoreInv(s: Store) {
    Books(s) && Atomic(s) && forall c :: Conserved(s, c)
  }

  lemma {:induction false} ExecuteKeepsBooks(s: Store, r: Request)
    requires Books(s) && Execute(s, r).Success?
    ensures Books(Execute(s, r).value)
  {
    match r
    case InternalRequest(id, _, _, _, _, _, _) =>
      var s0 := InsertTransfer(s, id, InternalRow(r, Processing));
      SameBooks(s, s0);
      PostKeepsBooks(s0, DebitPosting(r));
      var s1 := Post(s0, DebitPosting(r)).value;
      PostKeepsBooks(s1, CreditPosting(r));
      var s2 := Post(s1, CreditPosting(r)).value;
      SameBooks(s2, Execute(s, r).value);
    case WithdrawalRequest(id, _, _, _, _, _) =>
      var s0 := InsertTransfer(s, id, WithdrawalRow(r));
      SameBooks(s, s0);
      PostKeepsBooks(s0, DebitPosting(r));
    case DepositCredit(_, _, _, _) =>
      PostKeepsBooks(s, CreditPosting(r));
      SameBooks(Post(s, CreditPosting(r)).value, Execute(s, r).value);
  }

  lemma SameBooks(s: Store, s': Store)
    requires Books(s) && s'.wallets == s.wallets && s'.ledger == s.ledger
    ensures Books(s')
  {
    forall w | w in s'.wallets ensures Balanced(s', w) { assert Balanced(s, w); }
    forall i | 0 <= i < |s'.ledger| ensures EntryInOrder(s', i) { assert EntryInOrder(s, i); }
  }

  /** A request the services let through: validated, and with a fresh row id unless it settles a deposit. */
  predicate Admitted(s: Store, r: Request) {
    ValidationError(s, r).None? && (Inserts(r) ==> r.transferId !in s.transfers)
  }

  lemma {:induction false} AtomicAfter(s: Store, r: Request, s': Store)
    requires Atomic(s) && Admitted(s, r) && TablesAfter(s, r, s')
    requires forall id :: Legs(s'.ledger, id) == Legs(s.ledger, id) + NewLegs(r, id)
    ensures Atomic(s')
  {
    forall id | id in s'.transfers ensures RowSettled(s', s'.transfers[id], Legs(s'.ledger, id)) {
      if id == r.transferId {
        OwnRowSettled(s, r, s');
      } else {
        assert RowSettled(s, s.transfers[id], Legs(s.ledger, id));
      }
    }
    forall i | 0 <= i < |s'.ledger| ensures s'.ledger[i].transferId in s'.transfers {
      if i < |s.ledger| {
        assert s'.ledger[i] == s.ledger[i];
      }
    }
  }

  lemma OwnRowSettled(s: Store, r: Request, s': Store)
    requires Atomic(s) && Admitted(s, r) && TablesAfter(s, r, s')
    requires Legs(s'.ledger, r.transferId) == Legs(s.ledger, r.transferId) + NewLegs(r, r.transferId)
    ensures RowSettled(s', s'.transfers[r.transferId], Legs(s'.ledger, r.transferId))
  {
    if Inserts(r) {
      NoEntriesNoLegs(s.ledger, r.transferId);
      NewRowSettled(s, r, s', Legs(s'.ledger, r.transferId));
    } else {
      DepositStaysSettled(s, r, s', Legs(s.ledger, r.transferId), Legs(s'.ledger, r.transferId));
    }
  }

  lemma NewRowSettled(s: Store, r: Request, s': Store, legs: seq<Leg>)
    requires Inserts(r) && ValidationError(s, r).None? && TablesAfter(s, r, s') && legs == NewLegs(r, r.transferId)
    ensures RowSettled(s', s'.transfers[r.transferId], legs)
  {
  }

  lemma DepositStaysSettled(s: Store, r: Request, s': Store, before: seq<Leg>, after: seq<Leg>)
    requires r.DepositCredit? && ValidationError(s, r).None? && TablesAfter(s, r, s')
    requires RowSettled(s, s.transfers[r.transferId], before) && after == before + NewLegs(r, r.transferId)
    ensures RowSettled(s', s'.transfers[r.transferId], after)
  {
  }

  lemma {:induction false} ExecuteKeepsAtomic(s: Store, r: Request)
    requires Atomic(s) && Admitted(s, r) && Execute(s, r).Success?
    ensures Atomic(Execute(s, r).value)
  {
    ExecuteTables(s, r);
    forall id ensures Legs(Execute(s, r).value.ledger, id) == Legs(s.ledger, id) + NewLegs(r, id) {
      ExecuteLegs(s, r, id);
    }
    AtomicAfter(s, r, Execute(s, r).value);
  }

  /** How a request moves the balances and the category totals of a currency. */
  lemma {:induction false} ExecuteTotals(s: Store, r: Request, c: Currency)
    requires Books(s) && Admitted(s, r) && Execute(s, r).Success?
    ensures var s' := Execute(s, r).value;
      var wallet := if r.DepositCredit? then r.destination else r.source;
      && wallet in s.wallets
      && var here := s.wallets[wallet].currency == c;
      && TotalBalance(s', c) == TotalBalance(s, c) +
           (if !here then 0 else match r
            case InternalRequest(_, _, _, _, _, fee, _) => -fee
            case WithdrawalRequest(_, _, _, amount, fee, _) => -(amount + fee)
            case DepositCredit(_, _, amount, fee) => amount - fee)
      && CategoryTotal(s'.ledger, s'.wallets, DepositEntry, c) ==
           CategoryTotal(s.ledger, s.wallets, DepositEntry, c)
             + (if here && r.DepositCredit? then r.amount - r.fee else 0)
      && CategoryTotal(s'.ledger, s'.wallets, WithdrawalEntry, c) ==
           CategoryTotal(s.ledger, s.wallets, WithdrawalEntry, c)
             + (if here && r.WithdrawalRequest? then r.amount + r.fee else 0)
  {
    match r
    case InternalRequest(id, _, _, _, _, _, _) =>
      var s0 := InsertTransfer(s, id, InternalRow(r, Processing));
      SameBooks(s, s0);
      PostKeepsBooks(s0, DebitPosting(r));
      var s1 := Post(s0, DebitPosting(r)).value;
      PostTotals(s0, DebitPosting(r), c, DepositEntry);
      PostTotals(s0, DebitPosting(r), c, WithdrawalEntry);
      PostTotals(s1, CreditPosting(r), c, DepositEntry);
      PostTotals(s1, CreditPosting(r), c, WithdrawalEntry);
    case WithdrawalRequest(id, _, _, _, _, _) =>
      var s0 := InsertTransfer(s, id, WithdrawalRow(r));
      SameBooks(s, s0);
      PostTotals(s0, DebitPosting(r), c, DepositEntry);
      PostTotals(s0, DebitPosting(r), c, WithdrawalEntry);
    case DepositCredit(_, _, _, _) =>
      PostTotals(s, CreditPosting(r), c, DepositEntry);
      PostTotals(s, CreditPosting(r), c, WithdrawalEntry);
  }

  lemma {:induction false} FeesAfter(s: Store, r: Request, s': Store, c: Currency)
    requires Atomic(s) && Admitted(s, r) && TablesAfter(s, r, s')
    ensures TotalInternalFees(s', c) == TotalInternalFees(s, c) +
      (if r.InternalRequest? && s.wallets[r.source].currency == c then r.fee else 0)
  {
    FeesStable(s, s'.wallets, c);
    SumUpdate(s.transfers, FeeIn(s'.wallets, c), r.transferId, s'.transfers[r.transferId]);
  }

  lemma ExecuteConserves(s: Store, r: Request, c: Currency)
    requires Books(s) && Atomic(s) && Admitted(s, r) && Conserved(s, c) && Execute(s, r).Success?
    ensures Conserved(Execute(s, r).value, c)
  {
    ExecuteTotals(s, r, c);
    ExecuteTables(s, r);
    FeesAfter(s, r, Execute(s, r).value, c);
  }

  lemma RowEventKeepsBooks(s: Store, e: Event)
    requires Books(s) && !e.Committed? && ApplyEvent(s, e).Success?
    ensures Books(ApplyEvent(s, e).value)
  {
    var s' := ApplyEvent(s, e).value;
    if e.WalletCreated? {
      forall i | 0 <= i < |s.ledger| ensures s.ledger[i].walletId != e.walletId { assert EntryInOrder(s, i); }
      NoEntriesNoSum(s.ledger, e.walletId);
    }
    forall w | w in s'.wallets ensures Balanced(s', w) {
      if w in s.wallets { assert Balanced(s, w); }
    }
    forall i | 0 <= i < |s'.ledger| ensures EntryInOrder(s', i) { assert EntryInOrder(s, i); }
  }

  lemma RowEventKeepsAtomic(s: Store, e: Event)
    requires Atomic(s) && !e.Committed? && ApplyEvent(s, e).Success?
    ensures Atomic(ApplyEvent(s, e).value)
  {
    var s' := ApplyEvent(s, e).value;
    if e.DepositInitiated? { NoEntriesNoLegs(s.ledger, e.transferId); }
    forall id | id in s'.transfers ensures RowSettled(s', s'.transfers[id], Legs(s'.ledger, id)) {
      if id in s.transfers { assert RowSettled(s, s.transfers[id], Legs(s.ledger, id)); }
    }
  }

  /** Events other than transactions leave the ledger alone. */
  lemma {:induction false} RowEventKeeps(s: Store, e: Event)
    requires StoreInv(s) && !e.Committed? && ApplyEvent(s, e).Success?
    ensures StoreInv(ApplyEvent(s, e).value)
  {
    RowEventKeepsBooks(s, e);
    RowEventKeepsAtomic(s, e);
    forall c ensures Conserved(ApplyEvent(s, e).value, c) { RowEventConserves(s, e, c); }
  }

  lemma {:induction false} RowEventConserves(s: Store, e: Event, c: Currency)
    requires StoreInv(s) && !e.Committed? && ApplyEvent(s, e).Success?
    ensures Conserved(ApplyEvent(s, e).value, c)
  {
    var s' := ApplyEvent(s, e).value;
    assert Conserved(s, c);
    forall i | 0 <= i < |s.ledger| ensures s.ledger[i].walletId in s.wallets { assert EntryInOrder(s, i); }
    CategoryTotalStable(s.ledger, s.wallets, s'.wallets, DepositEntry, c);
    CategoryTotalStable(s.ledger, s.wallets, s'.wallets, WithdrawalEntry, c);
    RowEventBalances(s, e, c);
    RowEventFees(s, e, c);
  }

  lemma RowEventBalances(s: Store, e: Event, c: Currency)
    requires !e.Committed? && ApplyEvent(s, e).Success?
    ensures TotalBalance(ApplyEvent(s, e).value, c) == TotalBalance(s, c)
  {
    if e.WalletCreated? || (e.WalletStatusSet? && e.walletId in s.wallets) {
      SumUpdate(s.wallets, BalanceIn(c), e.walletId, ApplyEvent(s, e).value.wallets[e.walletId]);
    }
  }

  lemma RowEventFees(s: Store, e: Event, c: Currency)
    requires Atomic(s) && !e.Committed? && ApplyEvent(s, e).Success?
    ensures TotalInternalFees(ApplyEvent(s, e).value, c) == TotalInternalFees(s, c)
  {
    var s' := ApplyEvent(s, e).value;
    FeesStable(s, s'.wallets, c);
    if e.DepositInitiated? || (e.StatusWritten? && e.transferId in s.transfers) {
      SumUpdate(s.transfers, FeeIn(s.wallets, c), e.transferId, s'.transfers[e.transferId]);
    }
  }

  lemma CommitKeeps(s: Store, r: Request)
    requires StoreInv(s) && ApplyEvent(s, Committed(r)).Success? && ValidationError(s, r).None?
    ensures StoreInv(ApplyEvent(s, Committed(r)).value)
  {
    ExecuteKeepsBooks(s, r);
    ExecuteKeepsAtomic(s, r);
    forall c ensures Conserved(Execute(s, r).value, c) {
      assert Conserved(s, c);
      ExecuteConserves(s, r, c);
    }
  }

  // ----- what no committed change takes away -----

  ghost predicate RowsPersist(s: Store, s': Store) {
    forall id :: id in s.transfers ==>
      && id in s'.transfers
      && s'.transfers[id].(status := s.transfers[id].status) == s.transfers[id]
  }

  lemma EventPersists(s: Store, e: Event)
    requires ApplyEvent(s, e).Success?
    ensures WalletsPersist(s, ApplyEvent(s, e).value) && RowsPersist(s, ApplyEvent(s, e).value)
  {
    if e.Committed? {
      ExecuteTables(s, e.request);
    }
  }

  lemma ValidationStable(s: Store, s': Store, r: Request)
    requires WalletsPersist(s, s') && RowsPersist(s, s') && ValidationError(s, r).None?
    ensures ValidationError(s', r).None?
  {
  }

  lemma EmptyStoreInv()
    ensures StoreInv(EMPTY_STORE)
  {
  }
}
