/**
 Which transactions can wait for each other for ever: only internal transfers, each holding its
 source wallet and waiting for its destination. The code locks the source first, whatever the ids.
 */
module Deadlock {
  import opened Wrappers
  import opened Ledger
  import opened TransactionEngine
  import opened Serializability

  // ----- the waits-for graph -----

  /** The transaction's next statement needs a row somebody else holds. */
  predicate Waiting(s: State, tx: TxId) {
    Unfinished(s, tx) && !Available(s.locks, Needs(NextStatement(s, tx)), tx)
  }

  function Wanted(s: State, tx: TxId): Resource
    requires Waiting(s, tx)
  {
    Needs(NextStatement(s, tx)).value
  }

  function WaitsFor(s: State, tx: TxId): TxId
    requires Waiting(s, tx)
  {
    s.locks[Wanted(s, tx)]
  }

  function Next(i: nat, n: nat): nat
    requires i < n
  {
    if i + 1 == n then 0 else i + 1
  }

  ghost predicate WaitsForCycle(s: State, c: seq<TxId>) {
    && c != []
    && (forall i :: 0 <= i < |c| ==> Waiting(s, c[i]))
    && (forall i :: 0 <= i < |c| ==> WaitsFor(s, c[i]) == c[Next(i, |c|)])
  }

  /** a is an internal transfer that holds its source and waits for its destination, b's source, which b holds. */
  ghost predicate Link(s: State, a: TxId, b: TxId) {
    && a in s.txs && b in s.txs && a != b
    && s.txs[a].request.InternalRequest? && s.txs[b].request.InternalRequest?
    && s.txs[a].pc == 3
    && WalletRow(s.txs[a].request.source) in s.locks && s.locks[WalletRow(s.txs[a].request.source)] == a
    && s.txs[a].request.amount > 0
    && s.txs[a].request.destination == s.txs[b].request.source
    && WalletRow(s.txs[a].request.destination) in s.locks && s.locks[WalletRow(s.txs[a].request.destination)] == b
  }

  ghost predicate TransferCycle(s: State, c: seq<TxId>) {
    |c| >= 2 && forall i :: 0 <= i < |c| ==> Link(s, c[i], c[Next(i, |c|)])
  }

  // ----- who can wait, and who can hold while waiting -----

  /** What the engine guarantees about one running transaction. */
  ghost predicate Sound(store: Store, t: Tx) {
    && t.pc <= |Program(t.request)| && Prefix(store, t.request, t.pc) == Success(t.writes)
    && ValidationError(store, t.request).None?
    && (Inserts(t.request) <==> t.request.transferId !in store.transfers)
  }

  lemma RunningIsSound(s: State, tx: TxId)
    requires EngineInv(s) && tx in s.txs
    ensures Sound(s.store, s.txs[tx])
  {
    assert WorkIsCurrent(s, tx);
    OwnRowKnown(s, tx);
  }

  lemma HolderHolds(s: State, tx: TxId)
    requires LocksExact(s.txs, s.locks) && Waiting(s, tx)
    ensures WaitsFor(s, tx) in s.txs && WaitsFor(s, tx) != tx
    ensures var other := s.txs[WaitsFor(s, tx)]; Wanted(s, tx) in Held(other.request, other.pc)
  {
  }

  /** Two transactions after the same transfer row are two credits of one deposit, past one wallet lock. */
  lemma SameTransferRow(store: Store, t: Tx, other: Tx, id: TransferId)
    requires Sound(store, t) && Sound(store, other) && t.pc < |Program(t.request)|
    requires Needs(Program(t.request)[t.pc]) == Some(TransferRow(id))
      && TransferRow(id) in Held(other.request, other.pc)
    requires !(Inserts(t.request) && Inserts(other.request) && t.request.transferId == other.request.transferId)
    ensures t.request.DepositCredit? && other.request.DepositCredit?
    ensures t.request.destination == other.request.destination
    ensures WalletRow(t.request.destination) in Held(t.request, t.pc)
    ensures WalletRow(t.request.destination) in Held(other.request, other.pc)
  {
    HeldRows(other.request, other.pc);
    assert id == t.request.transferId == other.request.transferId;
    PassedLockHeld(store, t.request, t.pc);
    PassedLockHeld(store, other.request, other.pc);
  }

  /** Two transactions never compete for a transfer row: they would already compete for its wallet. */
  lemma WantsAWallet(s: State, tx: TxId)
    requires EngineInv(s) && Waiting(s, tx)
    ensures Wanted(s, tx).WalletRow?
  {
    HolderHolds(s, tx);
    var h := WaitsFor(s, tx);
    RunningIsSound(s, tx);
    RunningIsSound(s, h);
    match Wanted(s, tx)
    case WalletRow(_) =>
    case TransferRow(id) =>
      SameTransferRow(s.store, s.txs[tx], s.txs[h], id);
      HeldByOne(s, tx, h, WalletRow(s.txs[tx].request.destination));
  }

  lemma HeldByOne(s: State, x: TxId, y: TxId, res: Resource)
    requires LocksExact(s.txs, s.locks) && x in s.txs && y in s.txs
    requires res in Held(s.txs[x].request, s.txs[x].pc) && res in Held(s.txs[y].request, s.txs[y].pc)
    ensures x == y
  {
    assert res in s.locks && s.locks[res] == x;
    assert s.locks[res] == y;
  }

  /** The rows a transaction can hold, by how far it has come. */
  lemma HeldRows(r: Request, pc: nat)
    requires pc <= |Program(r)|
    ensures forall res :: res in Held(r, pc) ==>
      match res
      case TransferRow(id) => id == r.transferId && pc == |Program(r)|
      case WalletRow(w) =>
        || (!r.DepositCredit? && w == r.source && pc >= 2)
        || (r.InternalRequest? && w == r.destination && pc >= 4)
        || (r.DepositCredit? && w == r.destination && pc >= 1)
  {
    if pc > 0 {
      HeldRows(r, pc - 1);
    }
  }

  /** A deposit credit that has passed its lock statement holds the destination wallet. */
  lemma PassedLockHeld(store: Store, r: Request, pc: nat)
    requires r.DepositCredit? && 1 <= pc <= |Program(r)| && Prefix(store, r, pc).Success?
    ensures WalletRow(r.destination) in Held(r, pc)
  {
    if pc == 1 {
      FirstStatement(store, r);
      assert Needs(Program(r)[0]) == Some(WalletRow(r.destination));
      assert Held(r, 0) == {};
    } else {
      PassedLockHeld(store, r, pc - 1);
    }
  }

  lemma HoldsAWalletAndWants(t: Tx, w: WalletId, wanted: WalletId)
    requires t.pc < |Program(t.request)| && WalletRow(w) in Held(t.request, t.pc)
    requires Needs(Program(t.request)[t.pc]) == Some(WalletRow(wanted))
    ensures t.request.InternalRequest? && t.pc == 3 && t.request.amount > 0
    ensures w == t.request.source && wanted == t.request.destination
  {
    HeldRows(t.request, t.pc);
  }

  /** Whoever waits while somebody else waits for it is an internal transfer between its two locks. */
  lemma HolderThatWaits(s: State, tx: TxId)
    requires EngineInv(s) && Waiting(s, tx) && Waiting(s, WaitsFor(s, tx))
    ensures WaitsFor(s, tx) in s.txs && WaitsFor(s, tx) != tx
    ensures var t := s.txs[WaitsFor(s, tx)];
      && t.request.InternalRequest? && t.pc == 3 && t.request.amount > 0
      && Wanted(s, tx) == WalletRow(t.request.source)
      && Wanted(s, WaitsFor(s, tx)) == WalletRow(t.request.destination)
  {
    var h := WaitsFor(s, tx);
    WantsAWallet(s, tx);
    WantsAWallet(s, h);
    HolderHolds(s, tx);
    HoldsAWalletAndWants(s.txs[h], Wanted(s, tx).walletId, Wanted(s, h).walletId);
  }

  lemma CycleOfTransfers(s: State, c: seq<TxId>)
    requires EngineInv(s) && WaitsForCycle(s, c)
    ensures TransferCycle(s, c)
  {
    forall i | 0 <= i < |c| ensures Link(s, c[i], c[Next(i, |c|)]) {
      CycleLink(s, c, i);
    }
    assert Link(s, c[0], c[Next(0, |c|)]);
  }

  lemma CycleLink(s: State, c: seq<TxId>, i: nat)
    requires EngineInv(s) && WaitsForCycle(s, c) && i < |c|
    ensures Link(s, c[i], c[Next(i, |c|)])
  {
    var before := if i == 0 then |c| - 1 else i - 1;
    assert Next(before, |c|) == i;
    HolderThatWaits(s, c[before]);
    HolderThatWaits(s, c[i]);
  }

  // ----- a finite graph where everybody waits has a cycle -----

  ghost predicate Walk(f: map<TxId, TxId>, p: seq<TxId>) {
    && p != []
    && (forall i :: 0 <= i < |p| ==> p[i] in f)
    && (forall i, j :: 0 <= i < j < |p| ==> p[i] != p[j])
    && (forall i :: 0 <= i < |p| - 1 ==> f[p[i]] == p[i + 1])
  }

  ghost predicate CycleOf(f: map<TxId, TxId>, c: seq<TxId>) {
    c != [] && forall i :: 0 <= i < |c| ==> c[i] in f && f[c[i]] == c[Next(i, |c|)]
  }

  lemma {:induction false} DistinctFits(p: seq<TxId>, domain: set<TxId>)
    requires forall i :: 0 <= i < |p| ==> p[i] in domain
    requires forall i, j :: 0 <= i < j < |p| ==> p[i] != p[j]
    ensures |p| <= |domain|
  {
    if p != [] {
      var last := p[|p| - 1];
      DistinctFits(p[..|p| - 1], domain - {last});
    }
  }

  lemma {:induction false} FollowToCycle(f: map<TxId, TxId>, p: seq<TxId>) returns (c: seq<TxId>)
    requires Walk(f, p) && forall k :: k in f ==> f[k] in f
    ensures CycleOf(f, c)
    decreases |f.Keys| - |p|
  {
    DistinctFits(p, f.Keys);
    var next := f[p[|p| - 1]];
    if j :| 0 <= j < |p| && p[j] == next {
      c := p[j..];
    } else {
      assert Walk(f, p + [next]);
      DistinctFits(p + [next], f.Keys);
      c := FollowToCycle(f, p + [next]);
    }
  }

  // ----- the theorems -----

  ghost predicate Stuck(s: State, tx: TxId) {
    tx in s.txs && !Enabled(s, Advance(tx)) && !Enabled(s, Commit(tx))
  }

  lemma StuckWaits(s: State, tx: TxId)
    requires EngineInv(s) && Stuck(s, tx)
    ensures Waiting(s, tx) && WaitsFor(s, tx) in s.txs
  {
    assert WorkIsCurrent(s, tx);
  }

  lemma AllWaitingHasCycle(s: State) returns (c: seq<TxId>)
    requires s.txs != map[]
    requires forall tx :: tx in s.txs ==> Waiting(s, tx) && WaitsFor(s, tx) in s.txs
    ensures WaitsForCycle(s, c)
  {
    var f := map tx | tx in s.txs :: WaitsFor(s, tx);
    assert forall tx :: tx in f ==> f[tx] in f;
    c := SomeCycle(f);
    CycleWaits(s, f, c);
  }

  lemma SomeCycle(f: map<TxId, TxId>) returns (c: seq<TxId>)
    requires f != map[] && forall k :: k in f ==> f[k] in f
    ensures CycleOf(f, c)
  {
    var start :| start in f;
    c := FollowToCycle(f, [start]);
  }

  lemma CycleWaits(s: State, f: map<TxId, TxId>, c: seq<TxId>)
    requires CycleOf(f, c) && forall k :: k in f ==> Waiting(s, k) && WaitsFor(s, k) == f[k]
    ensures WaitsForCycle(s, c)
  {
  }

  lemma AllStuckHasCycle(s: State)
    requires EngineInv(s) && s.txs != map[]
    requires forall tx :: tx in s.txs ==> Stuck(s, tx)
    ensures exists c :: WaitsForCycle(s, c) && TransferCycle(s, c)
  {
    forall tx | tx in s.txs ensures Waiting(s, tx) && WaitsFor(s, tx) in s.txs {
      StuckWaits(s, tx);
    }
    var c := AllWaitingHasCycle(s);
    CycleOfTransfers(s, c);
  }

  /** In every reachable state, whoever waits waits for a wallet row, never for a transfer row. */
  lemma TransferRowsAreNeverContended(schedule: seq<Action>, tx: TxId)
    requires Waiting(Run(schedule), tx)
    ensures Wanted(Run(schedule), tx).WalletRow?
  {
    ReachableInv(schedule);
    WantsAWallet(Run(schedule), tx);
  }

  /** In every reachable state, every cycle is one of internal transfers: withdrawals and deposit credits
      are never in one. */
  lemma CyclesAreTransfers(schedule: seq<Action>, c: seq<TxId>)
    requires WaitsForCycle(Run(schedule), c)
    ensures TransferCycle(Run(schedule), c)
  {
    ReachableInv(schedule);
    CycleOfTransfers(Run(schedule), c);
  }

  /** Deadlock characterisation: if transactions are running and none can take its next statement or
      commit, then some of them are internal transfers waiting for each other in a ring. */
  lemma DeadlockIsTransferCycle(schedule: seq<Action>)
    requires Run(schedule).txs != map[]
    requires forall tx :: tx in Run(schedule).txs ==> Stuck(Run(schedule), tx)
    ensures exists c :: WaitsForCycle(Run(schedule), c) && TransferCycle(Run(schedule), c)
  {
    ReachableInv(schedule);
    AllStuckHasCycle(Run(schedule));
  }

  /** Some ranking of wallets increases along every running internal transfer: their graph has no cycle. */
  ghost predicate Ranked(s: State, rank: map<WalletId, int>) {
    forall tx :: tx in s.txs && s.txs[tx].request.InternalRequest? ==>
      var r := s.txs[tx].request;
      r.source in rank && r.destination in rank && rank[r.source] < rank[r.destination]
  }

  /** If the source-to-destination graph of the running internal transfers is acyclic, some running
      transaction can always go on. */
  lemma AcyclicTransfersProgress(schedule: seq<Action>, rank: map<WalletId, int>)
    requires Run(schedule).txs != map[] && Ranked(Run(schedule), rank)
    ensures exists tx :: tx in Run(schedule).txs && !Stuck(Run(schedule), tx)
  {
    var s := Run(schedule);
    if forall tx :: tx in s.txs ==> Stuck(s, tx) {
      DeadlockIsTransferCycle(schedule);
      var c :| WaitsForCycle(s, c) && TransferCycle(s, c);
      RanksClimb(s, c, rank, |c| - 1);
    }
  }

  lemma {:induction false} RanksClimb(s: State, c: seq<TxId>, rank: map<WalletId, int>, i: nat)
    requires TransferCycle(s, c) && i < |c| && Ranked(s, rank)
    ensures Link(s, c[0], c[Next(0, |c|)]) && Link(s, c[i], c[Next(i, |c|)])
    ensures rank[s.txs[c[0]].request.source] <= rank[s.txs[c[i]].request.source]
    ensures rank[s.txs[c[i]].request.source] < rank[s.txs[c[i]].request.destination]
    ensures s.txs[c[i]].request.destination == s.txs[c[Next(i, |c|)]].request.source
  {
    if i > 0 {
      RanksClimb(s, c, rank, i - 1);
      assert Next(i - 1, |c|) == i;
    }
  }

  // ----- a ring never resolves itself -----

  function ActsOn(a: Action): Option<TxId> {
    match a
    case Begin(tx, _) => Some(tx)
    case Advance(tx) => Some(tx)
    case Commit(tx) => Some(tx)
    case Rollback(tx) => Some(tx)
    case Autocommit(_) => None
  }

  /** What other transactions do changes neither a transaction nor the rows it holds. */
  lemma BystanderKeeps(s: State, a: Action, x: TxId)
    requires Enabled(s, a) && x in s.txs && ActsOn(a) != Some(x)
    ensures x in Take(s, a).txs && Take(s, a).txs[x] == s.txs[x]
    ensures forall res :: res in s.locks && s.locks[res] == x ==> res in Take(s, a).locks && Take(s, a).locks[res] == x
  {
  }

  lemma LinkedIsStuck(s: State, a: TxId, b: TxId)
    requires Link(s, a, b)
    ensures Stuck(s, a)
  {
  }

  /** A ring is broken only by rolling one of its members back: nothing else ever frees it. */
  lemma CyclePersists(s: State, c: seq<TxId>, a: Action)
    requires TransferCycle(s, c) && Enabled(s, a) && (a.Rollback? ==> a.tx !in c)
    ensures TransferCycle(Take(s, a), c)
  {
    forall i | 0 <= i < |c| ensures c[i] in s.txs && ActsOn(a) != Some(c[i]) {
      assert Link(s, c[i], c[Next(i, |c|)]);
      LinkedIsStuck(s, c[i], c[Next(i, |c|)]);
    }
    forall i | 0 <= i < |c| ensures Link(Take(s, a), c[i], c[Next(i, |c|)]) {
      assert Link(s, c[i], c[Next(i, |c|)]);
      BystanderKeeps(s, a, c[i]);
      BystanderKeeps(s, a, c[Next(i, |c|)]);
    }
  }

  // ----- and rings do happen -----

  lemma RunOne(schedule: seq<Action>, a: Action)
    requires Enabled(Run(schedule), a)
    ensures Run(schedule + [a]) == Take(Run(schedule), a)
  {
    assert (schedule + [a])[..|schedule|] == schedule;
  }

  predicate AtDebit(s: State, x: TxId, r: Request) {
    && r.InternalRequest? && x in s.txs && s.txs[x] == Tx(r, 0, NO_WRITES)
    && PostingError(s.store.wallets, DebitPosting(r)).None?
    && WalletRow(r.source) !in s.locks
  }

  function Inserted(r: Request): Writes
    requires r.InternalRequest?
  {
    NO_WRITES.(inserted := map[r.transferId := InternalRow(r, Processing)])
  }

  function Locked(r: Request, wallet: Wallet): Writes
    requires r.InternalRequest?
  {
    Inserted(r).(read := Some(wallet))
  }

  lemma InsertStep(s: State, x: TxId, r: Request)
    requires AtDebit(s, x, r)
    ensures Enabled(s, Advance(x)) && Take(s, Advance(x)) == s.(txs := s.txs[x := Tx(r, 1, Inserted(r))])
  {
  }

  lemma LockStep(s: State, x: TxId, r: Request)
    requires r.InternalRequest? && x in s.txs && s.txs[x] == Tx(r, 1, Inserted(r))
    requires PostingError(s.store.wallets, DebitPosting(r)).None? && WalletRow(r.source) !in s.locks
    ensures Enabled(s, Advance(x))
    ensures Take(s, Advance(x)) == s.(txs := s.txs[x := Tx(r, 2, Locked(r, s.store.wallets[r.source]))],
                                      locks := s.locks[WalletRow(r.source) := x])
  {
    assert WalletView(s.store.wallets, map[]) == s.store.wallets;
  }

  lemma WriteStep(s: State, x: TxId, r: Request, wallet: Wallet)
    requires r.InternalRequest? && x in s.txs && s.txs[x] == Tx(r, 2, Locked(r, wallet))
    ensures Enabled(s, Advance(x))
    ensures exists writes :: Take(s, Advance(x)) == s.(txs := s.txs[x := Tx(r, 3, writes)])
  {
    var writes := Perform(s.store, s.txs[x].writes, WritePosting(DebitPosting(r))).value;
    assert Take(s, Advance(x)) == s.(txs := s.txs[x := Tx(r, 3, writes)]);
  }

  /** Three statements take a freshly begun transfer past its debit, holding its source wallet. */
  lemma DebitTaken(schedule: seq<Action>, x: TxId, r: Request)
    requires AtDebit(Run(schedule), x, r)
    ensures var s, s' := Run(schedule), Run(schedule + [Advance(x)] + [Advance(x)] + [Advance(x)]);
      exists writes :: s' == s.(txs := s.txs[x := Tx(r, 3, writes)], locks := s.locks[WalletRow(r.source) := x])
  {
    var s := Run(schedule);
    InsertStep(s, x, r);
    RunOne(schedule, Advance(x));
    var s1 := Run(schedule + [Advance(x)]);
    LockStep(s1, x, r);
    RunOne(schedule + [Advance(x)], Advance(x));
    var s2 := Run(schedule + [Advance(x)] + [Advance(x)]);
    WriteStep(s2, x, r, s.store.wallets[r.source]);
    RunOne(schedule + [Advance(x)] + [Advance(x)], Advance(x));
    var writes :| Take(s2, Advance(x)) == s2.(txs := s2.txs[x := Tx(r, 3, writes)]);
    assert s1.txs[x := s2.txs[x]] == s.txs[x := s2.txs[x]];
    assert s2.txs[x := Tx(r, 3, writes)] == s.txs[x := Tx(r, 3, writes)];
  }

  predicate Opposite(rx: Request, ry: Request) {
    && rx.InternalRequest? && ry.InternalRequest? && rx.transferId != ry.transferId
    && rx.source == ry.destination && rx.destination == ry.source
  }

  lemma BothBegun(s: State, x: TxId, y: TxId, rx: Request, ry: Request)
    requires x != y && Opposite(rx, ry) && Enabled(s, Begin(x, rx)) && Enabled(s, Begin(y, ry))
    ensures var s1 := Take(s, Begin(x, rx));
      && Enabled(s1, Begin(y, ry))
      && var s2 := Take(s1, Begin(y, ry));
      && s2.store == s.store && s2.locks == s.locks && x in s2.txs && y in s2.txs
      && s2.txs[x] == Tx(rx, 0, NO_WRITES) && s2.txs[y] == Tx(ry, 0, NO_WRITES)
      && rx.amount > 0 && ry.amount > 0 && rx.source != ry.source
  {
  }

  lemma RingFormed(s: State, x: TxId, y: TxId, rx: Request, ry: Request)
    requires x != y && Opposite(rx, ry) && x in s.txs && y in s.txs && rx.amount > 0 && ry.amount > 0
    requires s.txs[x].request == rx && s.txs[x].pc == 3 && s.txs[y].request == ry && s.txs[y].pc == 3
    requires WalletRow(rx.source) in s.locks && s.locks[WalletRow(rx.source)] == x
    requires WalletRow(ry.source) in s.locks && s.locks[WalletRow(ry.source)] == y
    ensures TransferCycle(s, [x, y])
  {
    assert Link(s, x, y) && Link(s, y, x);
  }

  /** Whenever two opposite transfers could both be debited, there is an interleaving in which each
      ends up waiting for the other. */
  lemma OpposingTransfersDeadlock(schedule: seq<Action>, x: TxId, y: TxId, rx: Request, ry: Request)
      returns (longer: seq<Action>)
    requires x != y && Opposite(rx, ry)
    requires Enabled(Run(schedule), Begin(x, rx)) && Enabled(Run(schedule), Begin(y, ry))
    requires PostingError(Run(schedule).store.wallets, DebitPosting(rx)).None?
    requires PostingError(Run(schedule).store.wallets, DebitPosting(ry)).None?
    requires WalletRow(rx.source) !in Run(schedule).locks && WalletRow(ry.source) !in Run(schedule).locks
    ensures schedule <= longer && TransferCycle(Run(longer), [x, y])
  {
    BothBegun(Run(schedule), x, y, rx, ry);
    RunOne(schedule, Begin(x, rx));
    var one := schedule + [Begin(x, rx)];
    RunOne(one, Begin(y, ry));
    var both := one + [Begin(y, ry)];
    DebitTaken(both, x, rx);
    var first := both + [Advance(x)] + [Advance(x)] + [Advance(x)];
    DebitTaken(first, y, ry);
    longer := first + [Advance(y)] + [Advance(y)] + [Advance(y)];
    RingFormed(Run(longer), x, y, rx, ry);
  }
}
