/** Currency conversion with a spread and a floor, over a jittered rate table, its rows and its cache. */
module ExchangeRates {
  import opened Wrappers
  import opened Ledger

  const SPREAD := 0.02
  const MAX_JITTER := 0.005
  const ROUNDING := 0.000000005      // half a unit of the rate column's eighth decimal
  const KEPT := 0.948                // less than any two opposite rates leave of an amount

  // ----- the table of base rates -----

  function BaseRate(from: Currency, to: Currency): Option<real> {
    match (from, to)
    case (NGN, USD) => Some(0.00065)
    case (USD, NGN) => Some(1540.0)
    case (NGN, GHS) => Some(0.075)
    case (GHS, NGN) => Some(13.33)
    case (USD, GHS) => Some(15.5)
    case (GHS, USD) => Some(0.0645)
    case (USD, EUR) => Some(0.921)
    case (EUR, USD) => Some(1.086)
    case (USD, GBP) => Some(0.789)
    case (GBP, USD) => Some(1.268)
    case (NGN, EUR) => Some(0.00060)
    case (EUR, NGN) => Some(1666.0)
    case (USD, KES) => Some(129.5)
    case (KES, USD) => Some(0.0077)
    case _ => None
  }

  /** A rate the system can hold for a pair: the base rate with jitter, as drawn or as rounded by the column. */
  predicate Plausible(from: Currency, to: Currency, rate: real) {
    BaseRate(from, to).Some? && var base := BaseRate(from, to).value;
    base * (1.0 - MAX_JITTER) - ROUNDING <= rate <= base * (1.0 + MAX_JITTER) + ROUNDING
  }

  // ----- one conversion -----

  function Effective(rate: real): real {
    rate * (1.0 - SPREAD)
  }

  /** One leg at an effective rate. */
  function Leg(amount: int, effective: real): int {
    (amount as real * effective).Floor
  }

  function ConvertAt(amount: int, rate: real): int {
    Leg(amount, Effective(rate))
  }

  lemma AtEffectiveRate(amount: int, rate: real, effective: real)
    requires effective == Effective(rate)
    ensures (amount as real * effective).Floor == ConvertAt(amount, rate)
  {
  }

  /** A leg loses less than one unit to rounding. */
  lemma LegLosesLessThanOne(amount: int, rate: real)
    ensures amount as real * Effective(rate) - 1.0 < ConvertAt(amount, rate) as real <= amount as real * Effective(rate)
  {
  }

  /** The whole units in the amount at the rate less two percent. */
  predicate WholeUnits(amount: int, rate: real, result: int) {
    result as real <= amount as real * (rate * 0.98) < result as real + 1.0
  }

  lemma ConvertedIsWholeUnits(amount: int, rate: real)
    ensures WholeUnits(amount, rate, ConvertAt(amount, rate))
  {
    assert Effective(rate) == rate * 0.98;
  }

  lemma ScaleUp(a: real, b: real, factor: real)
    requires a <= b && factor >= 0.0
    ensures a * factor <= b * factor
  {
  }

  /** A larger amount never converts to less. */
  lemma LegIsMonotone(a: int, b: int, rate: real)
    requires a <= b && rate >= 0.0
    ensures ConvertAt(a, rate) <= ConvertAt(b, rate)
  {
    ScaleUp(a as real, b as real, Effective(rate));
  }

  // ----- there and back -----

  function Highest(from: Currency, to: Currency): real {
    match BaseRate(from, to)
    case None => 0.0
    case Some(base) => base * (1.0 + MAX_JITTER) + ROUNDING
  }

  /** Even the two highest rates of a pair lose to the two spreads. */
  lemma HighestRatesLose(from: Currency, to: Currency)
    ensures BaseRate(from, to).Some? <==> BaseRate(to, from).Some?
    ensures Highest(from, to) * (1.0 - SPREAD) * (Highest(to, from) * (1.0 - SPREAD)) <= 1.0
  {
  }

  lemma ProductBelow(x: real, y: real, hx: real, hy: real)
    requires 0.0 <= x <= hx && 0.0 <= y <= hy && hx * hy <= 1.0
    ensures x * y <= 1.0
  {
    ScaleUp(x, hx, y);
    ScaleUp(y, hy, hx);
  }

  lemma TwoLegs(amount: int, x: real, y: real)
    requires amount >= 0 && x >= 0.0 && y >= 0.0 && x * y <= 1.0
    ensures Leg(Leg(amount, x), y) <= amount
  {
    var there := (amount as real * x).Floor as real;
    ScaleUp(there, amount as real * x, y);
    assert amount as real * x * y == amount as real * (x * y);
    ScaleUp(x * y, 1.0, amount as real);
  }

  function Lowest(from: Currency, to: Currency): real {
    match BaseRate(from, to)
    case None => 0.0
    case Some(base) => base * (1.0 - MAX_JITTER) - ROUNDING
  }

  /** Even the two lowest rates of a pair keep more than 94.8%. */
  lemma LowestRatesKeep(from: Currency, to: Currency)
    requires BaseRate(from, to).Some?
    ensures Lowest(from, to) * (1.0 - SPREAD) * (Lowest(to, from) * (1.0 - SPREAD)) > KEPT
  {
  }

  lemma EffectiveWithin(from: Currency, to: Currency, rate: real)
    requires Plausible(from, to, rate)
    ensures 0.0 < Lowest(from, to) * (1.0 - SPREAD) <= Effective(rate) <= Highest(from, to) * (1.0 - SPREAD)
  {
  }

  lemma ProductAbove(x: real, y: real, lx: real, ly: real, least: real)
    requires 0.0 < lx <= x && 0.0 < ly <= y && lx * ly > least
    ensures x * y > least
  {
    ScaleUp(lx, x, ly);
    ScaleUp(ly, y, x);
  }

  /** What the two legs leave of an amount before rounding: at most all of it, more than 94.8%. */
  lemma BothLegs(from: Currency, to: Currency, there: real, back: real)
    requires Plausible(from, to, there) && Plausible(to, from, back)
    ensures Effective(there) > 0.0 && Effective(back) > 0.0
    ensures KEPT < Effective(there) * Effective(back) <= 1.0
  {
    EffectiveWithin(from, to, there);
    EffectiveWithin(to, from, back);
    HighestRatesLose(from, to);
    LowestRatesKeep(from, to);
    Between(Effective(there), Effective(back), Lowest(from, to) * (1.0 - SPREAD), Lowest(to, from) * (1.0 - SPREAD),
            Highest(from, to) * (1.0 - SPREAD), Highest(to, from) * (1.0 - SPREAD));
  }

  lemma Between(x: real, y: real, lx: real, ly: real, hx: real, hy: real)
    requires 0.0 < lx <= x <= hx && 0.0 < ly <= y <= hy && KEPT < lx * ly && hx * hy <= 1.0
    ensures KEPT < x * y <= 1.0
  {
    ProductAbove(x, y, lx, ly, KEPT);
    ProductBelow(x, y, hx, hy);
  }

  lemma LegsDoNotGain(amount: int, there: real, back: real)
    requires amount >= -19 && Effective(there) > 0.0 && Effective(back) > 0.0
    requires KEPT < Effective(there) * Effective(back) <= 1.0
    ensures ConvertAt(ConvertAt(amount, there), back) <= amount
  {
    if amount >= 0 {
      TwoLegs(amount, Effective(there), Effective(back));
    } else {
      SmallDebtsDoNotShrink(amount, Effective(there), Effective(back));
    }
  }

  /** No gain: for every pair of the table, any amount and any two rates the system can hold for the two
      directions, converting there and back never returns more than the start. */
  lemma NoGainThereAndBack(amount: nat, from: Currency, to: Currency, there: real, back: real)
    requires Plausible(from, to, there) && Plausible(to, from, back)
    ensures ConvertAt(ConvertAt(amount, there), back) <= amount
  {
    BothLegs(from, to, there, back);
    LegsDoNotGain(amount, there, back);
  }

  // ----- negative amounts, which nothing refuses -----

  lemma ScaleDown(a: real, b: real, factor: real)
    requires a < b && factor < 0.0
    ensures a * factor > b * factor
  {
  }

  lemma SmallDebtsDoNotShrink(amount: int, x: real, y: real)
    requires -19 <= amount < 0 && x > 0.0 && y > 0.0 && x * y > KEPT
    ensures Leg(Leg(amount, x), y) <= amount
  {
    var a := amount as real;
    var there := (a * x).Floor as real;
    ScaleUp(there, a * x, y);
    assert a * x * y == a * (x * y);
    ScaleDown(KEPT, x * y, a);
    LessThanOneMore(a, a * (x * y), there * y);
  }

  lemma LessThanOneMore(a: real, both: real, back: real)
    requires -19.0 <= a < 0.0 && both < KEPT * a && back <= both
    ensures back < a + 1.0
  {
  }

  /** For instance: what nothing refuses, a negative amount, loses size on the way and so comes back larger. */
  lemma NegativeAmountsComeBackLarger()
    ensures Plausible(USD, EUR, 0.921) && Plausible(EUR, USD, 1.086)
    ensures ConvertAt(ConvertAt(-1000, 0.921), 1.086) > -1000
  {
    assert ConvertAt(-1000, 0.921) == -903;
    assert ConvertAt(-903, 1.086) == -962;
  }

  /** No pair and no rates the system can hold make the amount gain. */
  ghost predicate NeverGains(amount: int) {
    forall from, to, there, back :: Plausible(from, to, there) && Plausible(to, from, back)
      ==> ConvertAt(ConvertAt(amount, there), back) <= amount
  }

  /** A debt of 20 or more shrinks when dollars go to shillings at one rate and back at the lowest. */
  lemma DebtShrinks(amount: int) returns (there: real, back: real)
    requires amount <= -20
    ensures Plausible(USD, KES, there) && Plausible(KES, USD, back)
    ensures ConvertAt(ConvertAt(amount, there), back) > amount
  {
    var debt := -amount as real;
    var shillings := (debt * 126.28).Floor + 1;
    ShillingsPerDollar(debt, shillings as real);
    there, back := shillings as real / debt / (1.0 - SPREAD), 0.0077 * (1.0 - MAX_JITTER);
    assert Effective(there) == shillings as real / debt;
    assert amount as real * Effective(there) == -shillings as real;
    assert ConvertAt(amount, there) == -shillings;
    assert Effective(back) == 0.00750827;
  }

  lemma ShillingsPerDollar(debt: real, shillings: real)
    requires debt >= 20.0 && debt * 126.28 < shillings <= debt * 126.28 + 1.0
    ensures 126.28 <= shillings / debt <= 126.33
  {
  }

  /** Exactly the amounts from -19 up never gain, whatever the pair and the rates. */
  lemma NeverGainsIff(amount: int)
    ensures NeverGains(amount) <==> amount >= -19
  {
    if amount <= -20 {
      var there, back := DebtShrinks(amount);
    } else {
      forall from, to, there, back | Plausible(from, to, there) && Plausible(to, from, back)
        ensures ConvertAt(ConvertAt(amount, there), back) <= amount
      {
        BothLegs(from, to, there, back);
        LegsDoNotGain(amount, there, back);
      }
    }
  }

  lemma LegAtLeast(amount: int, least: int, rate: real, factor: real)
    requires amount >= least >= 0 && Effective(rate) >= factor >= 0.0
    ensures ConvertAt(amount, rate) as real > least as real * factor - 1.0
  {
    ScaleUp(least as real, amount as real, Effective(rate));
    ScaleUp(factor, Effective(rate), least as real);
  }

  /** Triangles are another matter: the table's rates are not consistent across three currencies, and
      NGN -> GHS -> USD -> NGN gains on every amount from 1000 up, whatever the jitter. */
  lemma TriangleGains(amount: int, r1: real, r2: real, r3: real)
    requires amount >= 1000
    requires Plausible(NGN, GHS, r1) && Plausible(GHS, USD, r2) && Plausible(USD, NGN, r3)
    ensures ConvertAt(ConvertAt(ConvertAt(amount, r1), r2), r3) > amount
  {
    var cedis := ConvertAt(amount, r1);
    LegAtLeast(amount, amount, r1, 0.073);
    var dollars := ConvertAt(cedis, r2);
    LegAtLeast(cedis, cedis, r2, 0.0628);
    LegAtLeast(dollars, dollars, r3, 1500.0);
  }

  /** No rates the system can hold make a round over three currencies gain on any amount from zero up. */
  ghost predicate TriangleNeverGains(a: Currency, b: Currency, c: Currency) {
    forall amount: nat, r1, r2, r3 :: Plausible(a, b, r1) && Plausible(b, c, r2) && Plausible(c, a, r3)
      ==> ConvertAt(ConvertAt(ConvertAt(amount, r1), r2), r3) <= amount
  }

  /** What the highest rates of a round leave of an amount, after the three spreads. */
  function HighestRound(a: Currency, b: Currency, c: Currency): real {
    Effective(Highest(a, b)) * Effective(Highest(b, c)) * Effective(Highest(c, a))
  }

  lemma ChainBelow(a: real, x: real, y: real, z: real, first: real, second: real)
    requires first <= a * x && second <= first * y && y >= 0.0 && z >= 0.0
    ensures second * z <= a * (x * y * z)
  {
    ScaleUp(first, a * x, y);
    ScaleUp(second, a * x * y, z);
    assert a * x * y * z == a * (x * y * z);
  }

  lemma LegBounds(amount: int, x: real)
    ensures amount as real * x - 1.0 < Leg(amount, x) as real <= amount as real * x
  {
  }

  lemma ThreeLegs(amount: nat, x: real, y: real, z: real)
    requires x >= 0.0 && y >= 0.0 && z >= 0.0 && x * y * z <= 1.0
    ensures Leg(Leg(Leg(amount, x), y), z) <= amount
  {
    var first, second := Leg(amount, x), Leg(Leg(amount, x), y);
    LegBounds(amount, x);
    LegBounds(first, y);
    LegBounds(second, z);
    ChainBelow(amount as real, x, y, z, first as real, second as real);
    ScaleUp(x * y * z, 1.0, amount as real);
    AtMost(Leg(second, z), second as real * z, x * y * z * amount as real, amount);
  }

  lemma AtMost(result: int, v: real, bound: real, amount: int)
    requires result as real <= v <= bound <= amount as real
    ensures result <= amount
  {
  }

  lemma ThreeBelow(x: real, y: real, z: real, hx: real, hy: real, hz: real)
    requires 0.0 <= x <= hx && 0.0 <= y <= hy && 0.0 <= z <= hz && hx * hy * hz <= 1.0
    ensures x * y * z <= 1.0
  {
    ScaleUp(x, hx, y);
    ScaleUp(y, hy, hx);
    ScaleUp(x * y, hx * hy, z);
    ScaleUp(z, hz, hx * hy);
  }

  lemma ChainAbove(a: real, x: real, y: real, z: real, first: real, second: real, third: real)
    requires first >= a * x - 1.0 && second >= first * y - 1.0 && third > second * z - 1.0 && y >= 0.0 && z >= 0.0
    ensures third > a * (x * y * z) - y * z - z - 1.0
  {
    ScaleUp(a * x - 1.0, first, y);
    assert (a * x - 1.0) * y == a * x * y - y;
    ScaleUp(a * x * y - y - 1.0, second, z);
    assert (a * x * y - y - 1.0) * z == a * x * y * z - y * z - z;
    assert a * x * y * z == a * (x * y * z);
  }

  lemma LargeEnough(lost: real, gain: real) returns (amount: nat)
    requires lost > 0.0 && gain > 0.0
    ensures amount as real * gain >= lost
  {
    var q := lost / gain;
    assert q * gain == lost && q > 0.0;
    amount := q.Floor + 1;
    ScaleUp(q, amount as real, gain);
  }

  /** Once an amount is large enough, three floors do not eat a product above one. */
  lemma LargeAmountGains(x: real, y: real, z: real) returns (amount: nat)
    requires x > 0.0 && y > 0.0 && z > 0.0 && x * y * z > 1.0
    ensures Leg(Leg(Leg(amount, x), y), z) > amount
  {
    ScaleUp(0.0, y, z);
    amount := LargeEnough(y * z + z + 1.0, x * y * z - 1.0);
    ThreeLegsAbove(amount, x, y, z);
    MoreThan(Leg(Leg(Leg(amount, x), y), z), amount as real, x * y * z, y * z, z);
  }

  lemma ThreeLegsAbove(amount: nat, x: real, y: real, z: real)
    requires y >= 0.0 && z >= 0.0
    ensures Leg(Leg(Leg(amount, x), y), z) as real > amount as real * (x * y * z) - y * z - z - 1.0
  {
    var first, second := Leg(amount, x), Leg(Leg(amount, x), y);
    LegBounds(amount, x);
    LegBounds(first, y);
    LegBounds(second, z);
    ChainAbove(amount as real, x, y, z, first as real, second as real, Leg(second, z) as real);
  }

  lemma MoreThan(result: int, a: real, product: real, yz: real, z: real)
    requires a * (product - 1.0) >= yz + z + 1.0 && result as real > a * product - yz - z - 1.0
    ensures result as real > a
  {
    assert a * (product - 1.0) == a * product - a;
  }

  lemma RoundHasRates(a: Currency, b: Currency, c: Currency)
    requires BaseRate(a, b).Some? && BaseRate(b, c).Some? && BaseRate(c, a).Some?
    ensures Plausible(a, b, Highest(a, b)) && Plausible(b, c, Highest(b, c)) && Plausible(c, a, Highest(c, a))
    ensures Effective(Highest(a, b)) > 0.0 && Effective(Highest(b, c)) > 0.0 && Effective(Highest(c, a)) > 0.0
  {
  }

  lemma RoundBelowOne(a: Currency, b: Currency, c: Currency, r1: real, r2: real, r3: real)
    requires Plausible(a, b, r1) && Plausible(b, c, r2) && Plausible(c, a, r3) && HighestRound(a, b, c) <= 1.0
    ensures Effective(r1) >= 0.0 && Effective(r2) >= 0.0 && Effective(r3) >= 0.0
    ensures Effective(r1) * Effective(r2) * Effective(r3) <= 1.0
  {
    EffectiveWithin(a, b, r1);
    EffectiveWithin(b, c, r2);
    EffectiveWithin(c, a, r3);
    ThreeBelow(Effective(r1), Effective(r2), Effective(r3),
               Effective(Highest(a, b)), Effective(Highest(b, c)), Effective(Highest(c, a)));
  }

  lemma RoundDoesNotGain(amount: nat, r1: real, r2: real, r3: real)
    requires Effective(r1) >= 0.0 && Effective(r2) >= 0.0 && Effective(r3) >= 0.0
    requires Effective(r1) * Effective(r2) * Effective(r3) <= 1.0
    ensures ConvertAt(ConvertAt(ConvertAt(amount, r1), r2), r3) <= amount
  {
    ThreeLegs(amount, Effective(r1), Effective(r2), Effective(r3));
  }

  lemma SomeAmountGains(r1: real, r2: real, r3: real) returns (amount: nat)
    requires Effective(r1) > 0.0 && Effective(r2) > 0.0 && Effective(r3) > 0.0
    requires Effective(r1) * Effective(r2) * Effective(r3) > 1.0
    ensures ConvertAt(ConvertAt(ConvertAt(amount, r1), r2), r3) > amount
  {
    amount := LargeAmountGains(Effective(r1), Effective(r2), Effective(r3));
  }

  /** A round over three listed pairs never gains exactly when its highest rates, less the spreads, multiply
      to at most one. */
  lemma TriangleNeverGainsIff(a: Currency, b: Currency, c: Currency)
    requires BaseRate(a, b).Some? && BaseRate(b, c).Some? && BaseRate(c, a).Some?
    ensures TriangleNeverGains(a, b, c) <==> HighestRound(a, b, c) <= 1.0
  {
    RoundHasRates(a, b, c);
    if HighestRound(a, b, c) <= 1.0 {
      forall amount: nat, r1, r2, r3 | Plausible(a, b, r1) && Plausible(b, c, r2) && Plausible(c, a, r3)
        ensures ConvertAt(ConvertAt(ConvertAt(amount, r1), r2), r3) <= amount
      {
        RoundBelowOne(a, b, c, r1, r2, r3);
        RoundDoesNotGain(amount, r1, r2, r3);
      }
    } else {
      var amount := SomeAmountGains(Highest(a, b), Highest(b, c), Highest(c, a));
    }
  }

  // ----- the rates the service holds -----

  datatype Pair = Pair(from: Currency, to: Currency)

  datatype RateRow = RateRow(pair: Pair, rate: real, spread: real, expiresAt: nat)

  datatype CachedRate = CachedRate(row: RateRow, until: nat)

  /** decimal(18, 8) */
  function Stored(rate: real): real {
    (rate * 100000000.0 + 0.5).Floor as real / 100000000.0
  }

  predicate GoodRow(row: RateRow) {
    Plausible(row.pair.from, row.pair.to, row.rate) && row.spread == SPREAD
  }

  /** `random` is Math.random(). */
  function Jittered(base: real, random: real): real {
    base * (1.0 + (random - 0.5) * 0.01)
  }

  lemma JitterStaysInRange(from: Currency, to: Currency, random: real)
    requires BaseRate(from, to).Some? && 0.0 <= random < 1.0
    ensures Plausible(from, to, Jittered(BaseRate(from, to).value, random))
    ensures Plausible(from, to, Stored(Jittered(BaseRate(from, to).value, random)))
  {
    var base := BaseRate(from, to).value;
    assert base > 0.0;
    var factor := 1.0 + (random - 0.5) * 0.01;
    ScaleUp(1.0 - MAX_JITTER, factor, base);
    ScaleUp(factor, 1.0 + MAX_JITTER, base);
  }

  const PAIRS: seq<Pair> := [
    Pair(NGN, USD), Pair(USD, NGN), Pair(NGN, GHS), Pair(GHS, NGN), Pair(USD, GHS), Pair(GHS, USD), Pair(USD, EUR),
    Pair(EUR, USD), Pair(USD, GBP), Pair(GBP, USD), Pair(NGN, EUR), Pair(EUR, NGN), Pair(USD, KES), Pair(KES, USD)]

  lemma PairsAreTheTable(p: Pair)
    ensures p in PAIRS <==> BaseRate(p.from, p.to).Some?
  {
    assert PAIRS[0] == Pair(NGN, USD) && PAIRS[1] == Pair(USD, NGN);
    assert PAIRS[2] == Pair(NGN, GHS) && PAIRS[3] == Pair(GHS, NGN);
    assert PAIRS[4] == Pair(USD, GHS) && PAIRS[5] == Pair(GHS, USD);
    assert PAIRS[6] == Pair(USD, EUR) && PAIRS[7] == Pair(EUR, USD);
    assert PAIRS[8] == Pair(USD, GBP) && PAIRS[9] == Pair(GBP, USD);
    assert PAIRS[10] == Pair(NGN, EUR) && PAIRS[11] == Pair(EUR, NGN);
    assert PAIRS[12] == Pair(USD, KES) && PAIRS[13] == Pair(KES, USD);
  }

  /** The newest row of a pair that has not expired. */
  function LatestRow(rows: seq<RateRow>, pair: Pair, now: nat): Option<RateRow> {
    if rows == [] then None
    else
      var last := rows[|rows| - 1];
      if Live(last, pair, now) then Some(last) else LatestRow(rows[..|rows| - 1], pair, now)
  }

  predicate Live(row: RateRow, pair: Pair, now: nat) {
    row.pair == pair && row.expiresAt > now
  }

  ghost predicate NewestLive(rows: seq<RateRow>, pair: Pair, now: nat, i: nat)
    requires i < |rows|
  {
    Live(rows[i], pair, now) && forall j :: i < j < |rows| ==> !Live(rows[j], pair, now)
  }

  lemma {:induction false} LatestRowIsNewest(rows: seq<RateRow>, pair: Pair, now: nat)
    ensures LatestRow(rows, pair, now).None? <==> forall i :: 0 <= i < |rows| ==> !Live(rows[i], pair, now)
    ensures LatestRow(rows, pair, now).Some? ==>
      exists i :: 0 <= i < |rows| && rows[i] == LatestRow(rows, pair, now).value && NewestLive(rows, pair, now, i)
  {
    if rows != [] {
      var init, k := rows[..|rows| - 1], |rows| - 1;
      LatestRowIsNewest(init, pair, now);
      if Live(rows[k], pair, now) {
        assert NewestLive(rows, pair, now, k);
      } else if LatestRow(init, pair, now).Some? {
        var i :| 0 <= i < k && init[i] == LatestRow(init, pair, now).value && NewestLive(init, pair, now, i);
        assert NewestLive(rows, pair, now, i);
      }
    }
  }

  class ExchangeRatesService {
    var rows: seq<RateRow>
    var cache: map<Pair, CachedRate>

    constructor ()
      ensures Valid() && rows == [] && cache == map[]
    {
      rows, cache := [], map[];
    }

    /** Every rate the service can serve is plausible for its pair, and not cached past its expiry by a minute. */
    ghost predicate Valid()
      reads this
    {
      && (forall i :: 0 <= i < |rows| ==> GoodRow(rows[i]))
      && (forall p :: p in cache ==>
            cache[p].row.pair == p && GoodRow(cache[p].row) && cache[p].until <= cache[p].row.expiresAt + 60_000)
    }

    method UpsertMockRate(pair: Pair, now: nat, random: real) returns (rate: Option<RateRow>)
      requires Valid() && 0.0 <= random < 1.0
      modifies this
      ensures Valid()
      ensures rate.Some? <==> BaseRate(pair.from, pair.to).Some?
      ensures rate.None? ==> rows == old(rows) && cache == old(cache)
      ensures rate.Some? ==>
        && rate.value.pair == pair && GoodRow(rate.value) && rate.value.expiresAt == now + 300_000
        && rate.value.rate == BaseRate(pair.from, pair.to).value * (1.0 + (random - 0.5) * 0.01)
        && rate.value.spread == 0.02
        && cache == old(cache)[pair := CachedRate(rate.value, now + 60_000)]
        && rows == old(rows) + [rate.value.(rate := Stored(rate.value.rate))]
    {
      var base := BaseRate(pair.from, pair.to);
      if base.None? { return None; }
      JitterStaysInRange(pair.from, pair.to, random);
      var row := RateRow(pair, Jittered(base.value, random), SPREAD, now + 300_000);
      rows := rows + [row.(rate := Stored(row.rate))];
      cache := cache[pair := CachedRate(row, now + 60_000)];
      rate := Some(row);
    }

    /** Within one currency a synthetic rate of one for a day. Otherwise a cached rate first, then the newest
        live row, then a new rate: none at all when the pair is not listed. Whatever is served expired less
        than a minute ago, if at all. */
    method GetRate(pair: Pair, now: nat, random: real) returns (rate: Option<RateRow>)
      requires Valid() && 0.0 <= random < 1.0
      modifies this
      ensures Valid()
      ensures rate.Some? <==> pair.from == pair.to || BaseRate(pair.from, pair.to).Some?
      ensures pair.from == pair.to ==>
        rate == Some(RateRow(pair, 1.0, 0.0, now + 86_400_000)) && rows == old(rows) && cache == old(cache)
      ensures rate.Some? && pair.from != pair.to ==>
        rate.value.pair == pair && GoodRow(rate.value) && now < rate.value.expiresAt + 60_000
      ensures pair.from != pair.to ==>
        var cached := pair in old(cache) && now < old(cache)[pair].until;
        var latest := LatestRow(old(rows), pair, now);
        && (cached ==> rate == Some(old(cache)[pair].row))
        && (!cached && latest.Some? ==> rate == latest)
        && (cached || latest.Some? ==> rows == old(rows))
        && (cached ==> cache == old(cache))
        && (!cached && rate.Some? ==> cache == old(cache)[pair := CachedRate(rate.value, now + 60_000)])
        && (!cached && latest.None? && rate.Some? ==>
              rate.value.expiresAt == now + 300_000
              && rows == old(rows) + [rate.value.(rate := Stored(rate.value.rate))])
    {
      if pair.from == pair.to {
        return Some(RateRow(pair, 1.0, 0.0, now + 86_400_000));
      }
      if pair in cache && now < cache[pair].until {
        return Some(cache[pair].row);
      }
      var dbRate := LatestRow(rows, pair, now);
      LatestRowIsNewest(rows, pair, now);
      if dbRate.Some? {
        cache := cache[pair := CachedRate(dbRate.value, now + 60_000)];
        return dbRate;
      }
      rate := UpsertMockRate(pair, now, random);
    }

    /** `used` is the rate the result was computed with. */
    method Convert(amount: int, from: Currency, to: Currency, now: nat, random: real)
        returns (result: Option<int>, used: real)
      requires Valid() && 0.0 <= random < 1.0
      modifies this
      ensures Valid()
      ensures from == to ==> result == Some(amount)
      ensures from != to ==> (result.Some? <==> BaseRate(from, to).Some?)
      ensures from != to && result.Some? ==> Plausible(from, to, used) && result == Some(ConvertAt(amount, used))
      ensures from != to && result.Some? ==> WholeUnits(amount, used, result.value)
    {
      var rate := GetRate(Pair(from, to), now, random);
      if rate.None? { return None, 0.0; }
      used := rate.value.rate;
      var spreadMultiplier := if from != to then 1.0 - rate.value.spread else 1.0;
      var effectiveRate := used * spreadMultiplier;
      if from != to {
        AtEffectiveRate(amount, used, effectiveRate);
        ConvertedIsWholeUnits(amount, used);
      } else {
        assert effectiveRate == 1.0 && amount as real * effectiveRate == amount as real;
      }
      result := Some((amount as real * effectiveRate).Floor);
    }

    /** Afterwards every listed pair is freshly cached. */
    method RefreshMockRates(now: nat, randoms: seq<real>)
      requires Valid() && |randoms| == |PAIRS| && forall i :: 0 <= i < |randoms| ==> 0.0 <= randoms[i] < 1.0
      modifies this
      ensures Valid()
      ensures forall p: Pair :: BaseRate(p.from, p.to).Some? ==> p in cache && cache[p].until == now + 60_000
      ensures old(rows) <= rows && |rows| == |old(rows)| + 14
    {
      for k := 0 to |PAIRS|
        invariant Valid() && old(rows) <= rows && |rows| == |old(rows)| + k
        invariant forall j :: 0 <= j < k ==> PAIRS[j] in cache && cache[PAIRS[j]].until == now + 60_000
      {
        PairsAreTheTable(PAIRS[k]);
        var _ := UpsertMockRate(PAIRS[k], now, randoms[k]);
      }
      forall p: Pair | BaseRate(p.from, p.to).Some? ensures p in cache && cache[p].until == now + 60_000 {
        PairsAreTheTable(p);
      }
    }
  }

  /** Converting there and back through the service, whenever and with whatever jitter, never gains. */
  method ThereAndBack(service: ExchangeRatesService, amount: nat, from: Currency, to: Currency,
                      now: nat, later: nat, random: real, random': real) returns (back: Option<int>)
    requires service.Valid() && 0.0 <= random < 1.0 && 0.0 <= random' < 1.0
    modifies service
    ensures service.Valid()
    ensures back.Some? ==> back.value <= amount
  {
    var there, r := service.Convert(amount, from, to, now, random);
    if there.None? { return None; }
    var result, r' := service.Convert(there.value, to, from, later, random');
    if result.Some? && from != to {
      NoGainThereAndBack(amount, from, to, r, r');
    }
    back := result;
  }
}
