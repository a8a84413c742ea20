/** Fees in the smallest currency unit: rates are exact fractions with the columns' scales. */
module FeeEngine {
  import opened Wrappers

  const PCT: int := 1_000_000   // percentage: decimal with six places
  const TAX: int := 10_000      // taxRate: decimal with four places

  datatype FeeType = Flat | Percentage | Tiered

  datatype Tier = Tier(minAmount: int, maxAmount: Option<int>, flatFee: int)

  /** `tiers` is empty when the column is null or an empty list. */
  datatype Rule = Rule(
    feeType: FeeType, flatAmount: int, percentage: int, cap: Option<int>, floor: Option<int>,
    tiers: seq<Tier>, taxRate: int, minAmount: int, maxAmount: Option<int>)

  datatype LineItem = BaseLine(amount: int) | VatLine(amount: int)

  datatype Breakdown = Breakdown(baseFee: int, tax: int, totalFee: int, lineItems: seq<LineItem>)

  const ZERO_FEE := Breakdown(0, 0, 0, [])

  /** Math.round(num / den): halves go up. */
  function RoundDiv(num: int, den: int): int
    requires den > 0
  {
    (2 * num + den) / (2 * den)
  }

  predicate Matches(tier: Tier, amount: int) {
    amount >= tier.minAmount && (tier.maxAmount.None? || amount <= tier.maxAmount.value)
  }

  /** The first tier that matches. */
  function FindTier(tiers: seq<Tier>, amount: int): Option<Tier> {
    if tiers == [] then None
    else if Matches(tiers[0], amount) then Some(tiers[0])
    else FindTier(tiers[1..], amount)
  }

  function ComputeBaseFee(rule: Rule, amount: int): int {
    match rule.feeType
    case Flat => rule.flatAmount
    case Percentage => RoundDiv(amount * rule.percentage, PCT)
    case Tiered =>
      match FindTier(rule.tiers, amount)
      case None => rule.flatAmount
      case Some(tier) => tier.flatFee
  }

  function Clamp(rule: Rule, fee: int): int {
    var floored := if rule.floor.Some? && fee < rule.floor.value then rule.floor.value else fee;
    if rule.cap.Some? && floored > rule.cap.value then rule.cap.value else floored
  }

  function TaxOn(rule: Rule, baseFee: int): int {
    if rule.taxRate > 0 then RoundDiv(baseFee * rule.taxRate, TAX) else 0
  }

  /** A maximum of zero is no maximum: the code tests its truthiness. */
  predicate InRange(rule: Rule, amount: int) {
    amount >= rule.minAmount && (rule.maxAmount.None? || rule.maxAmount.value == 0 || amount <= rule.maxAmount.value)
  }

  function Charge(rule: Rule, amount: int): Breakdown {
    var baseFee := Clamp(rule, ComputeBaseFee(rule, amount));
    var tax := TaxOn(rule, baseFee);
    Breakdown(baseFee, tax, baseFee + tax, [BaseLine(baseFee)] + if tax > 0 then [VatLine(tax)] else [])
  }

  /** The cap always holds, and the floor exactly when the cap leaves room for it. */
  predicate KeepsBounds(rule: Rule, baseFee: int) {
    && (rule.cap.Some? ==> baseFee <= rule.cap.value)
    && (rule.floor.Some? && rule.cap.None? ==> rule.floor.value <= baseFee)
    && (rule.floor.Some? && rule.cap.Some? ==>
          (rule.floor.value <= baseFee <= rule.cap.value <==> rule.floor.value <= rule.cap.value))
  }

  // ----- what is charged, in the rule's columns -----

  /** The whole number nearest to num / den, and of two equally near the larger. */
  predicate Nearest(num: int, den: int, n: int) {
    2 * den * n - den <= 2 * num < 2 * den * n + den
  }

  predicate Within(tier: Tier, amount: int) {
    tier.minAmount <= amount && (tier.maxAmount.Some? ==> amount <= tier.maxAmount.value)
  }

  ghost predicate FirstWithin(tiers: seq<Tier>, amount: int, k: nat) {
    k < |tiers| && Within(tiers[k], amount) && forall j :: 0 <= j < k ==> !Within(tiers[j], amount)
  }

  ghost predicate NoneWithin(tiers: seq<Tier>, amount: int) {
    forall j :: 0 <= j < |tiers| ==> !Within(tiers[j], amount)
  }

  /** A flat amount, the percentage rounded to the nearest unit, or the fee of the first tier the amount is within
      and the flat amount when there is none. */
  ghost predicate IsBaseFee(rule: Rule, amount: int, fee: int) {
    match rule.feeType
    case Flat => fee == rule.flatAmount
    case Percentage => Nearest(amount * rule.percentage, 1_000_000, fee)
    case Tiered =>
      || (exists k: nat :: FirstWithin(rule.tiers, amount, k) && rule.tiers[k].flatFee == fee)
      || (NoneWithin(rule.tiers, amount) && fee == rule.flatAmount)
  }

  /** A fee between floor and cap is charged unchanged; one above the cap becomes the cap, and one below the floor the
      floor, unless the cap is lower still. */
  predicate IsClamped(rule: Rule, fee: int, charged: int) {
    if rule.cap.Some? && fee > rule.cap.value then charged == rule.cap.value
    else if rule.floor.None? || fee >= rule.floor.value then charged == fee
    else if rule.cap.None? || rule.floor.value <= rule.cap.value then charged == rule.floor.value
    else charged == rule.cap.value
  }

  predicate IsTax(rule: Rule, baseFee: int, tax: int) {
    if rule.taxRate > 0 then Nearest(baseFee * rule.taxRate, 10_000, tax) else tax == 0
  }

  lemma RoundDivIsNearest(num: int, den: int)
    requires den > 0
    ensures Nearest(num, den, RoundDiv(num, den))
  {
  }

  lemma {:induction false} FindTierIsFirst(tiers: seq<Tier>, amount: int)
    ensures FindTier(tiers, amount).None? ==> NoneWithin(tiers, amount)
    ensures FindTier(tiers, amount).Some? ==>
      exists k: nat :: FirstWithin(tiers, amount, k) && tiers[k] == FindTier(tiers, amount).value
  {
    if tiers != [] {
      FindTierIsFirst(tiers[1..], amount);
      forall j | 0 < j < |tiers| ensures tiers[1..][j - 1] == tiers[j] {}
      if Matches(tiers[0], amount) {
        assert FirstWithin(tiers, amount, 0);
      } else if FindTier(tiers, amount).Some? {
        var k: nat :| FirstWithin(tiers[1..], amount, k) && tiers[1..][k] == FindTier(tiers, amount).value;
        assert FirstWithin(tiers, amount, k + 1);
      }
    }
  }

  lemma BaseFeeIsPriced(rule: Rule, amount: int)
    ensures IsBaseFee(rule, amount, ComputeBaseFee(rule, amount))
  {
    match rule.feeType
    case Flat =>
    case Percentage => RoundDivIsNearest(amount * rule.percentage, PCT);
    case Tiered => FindTierIsFirst(rule.tiers, amount);
  }

  /** What a rule charges, said without the calculation. */
  lemma ChargeIsPriced(rule: Rule, amount: int)
    ensures var b := Charge(rule, amount);
      && (exists fee :: IsBaseFee(rule, amount, fee) && IsClamped(rule, fee, b.baseFee))
      && IsTax(rule, b.baseFee, b.tax)
  {
    BaseFeeIsPriced(rule, amount);
    assert IsClamped(rule, ComputeBaseFee(rule, amount), Charge(rule, amount).baseFee);
    RoundDivIsNearest(Charge(rule, amount).baseFee * rule.taxRate, TAX);
  }

  /** And there is only one such fee. */
  lemma PriceIsUnique(rule: Rule, amount: int, fee: int, fee': int)
    requires IsBaseFee(rule, amount, fee) && IsBaseFee(rule, amount, fee')
    ensures fee == fee'
  {
    if rule.feeType == Tiered && !NoneWithin(rule.tiers, amount) {
      var k: nat :| FirstWithin(rule.tiers, amount, k) && rule.tiers[k].flatFee == fee;
      var l: nat :| FirstWithin(rule.tiers, amount, l) && rule.tiers[l].flatFee == fee';
      assert k == l;
    }
  }

  /** `calculate`, given the rule the table or the cache yields. A maximum of zero is none. */
  method Calculate(rule: Option<Rule>, amount: int) returns (b: Breakdown)
    ensures var applies :=
        && rule.Some? && rule.value.minAmount <= amount
        && (rule.value.maxAmount.Some? && rule.value.maxAmount.value != 0 ==> amount <= rule.value.maxAmount.value);
      && (!applies ==> b == Breakdown(0, 0, 0, []))
      && (applies ==>
            && (exists fee :: IsBaseFee(rule.value, amount, fee) && IsClamped(rule.value, fee, b.baseFee))
            && IsTax(rule.value, b.baseFee, b.tax)
            && b.lineItems == if b.tax > 0 then [BaseLine(b.baseFee), VatLine(b.tax)] else [BaseLine(b.baseFee)])
    ensures b == if rule.Some? && InRange(rule.value, amount) then Charge(rule.value, amount) else ZERO_FEE
    ensures b.totalFee == b.baseFee + b.tax
    ensures rule.Some? && InRange(rule.value, amount) ==> KeepsBounds(rule.value, b.baseFee)
  {
    if rule.None? { return ZERO_FEE; }
    var r := rule.value;
    if amount < r.minAmount { return ZERO_FEE; }
    if r.maxAmount.Some? && r.maxAmount.value != 0 && amount > r.maxAmount.value { return ZERO_FEE; }
    ChargeIsPriced(r, amount);
    var baseFee := ComputeBaseFee(r, amount);
    if r.floor.Some? && baseFee < r.floor.value {
      baseFee := r.floor.value;
    }
    if r.cap.Some? && baseFee > r.cap.value {
      baseFee := r.cap.value;
    }
    var tax := if r.taxRate > 0 then RoundDiv(baseFee * r.taxRate, TAX) else 0;
    b := Breakdown(baseFee, tax, baseFee + tax, [BaseLine(baseFee)] + if tax > 0 then [VatLine(tax)] else []);
  }

  // ----- line items -----

  function SumItems(items: seq<LineItem>): int {
    if items == [] then 0 else SumItems(items[..|items| - 1]) + items[|items| - 1].amount
  }

  lemma RoundTaxSign(x: int)
    ensures RoundDiv(x, TAX) >= 0 <==> 2 * x + TAX >= 0
  {
  }

  lemma LineItemsCanMissTheTotal()
    ensures var rule := Rule(Percentage, 0, -500_000, None, None, [], 750, 0, None);
      Charge(rule, 1000) == Breakdown(-500, -37, -537, [BaseLine(-500)])
  {
  }

  // ----- tiers -----

  ghost predicate MatchesOnce(tiers: seq<Tier>, amount: int) {
    exists i :: 0 <= i < |tiers| && MatchesOnlyAt(tiers, amount, i)
  }

  ghost predicate MatchesOnlyAt(tiers: seq<Tier>, amount: int, i: nat)
    requires i < |tiers|
  {
    Matches(tiers[i], amount) && forall j :: 0 <= j < |tiers| && Matches(tiers[j], amount) ==> j == i
  }

  ghost predicate Partition(tiers: seq<Tier>) {
    forall amount :: amount >= 0 ==> MatchesOnce(tiers, amount)
  }

  /** Bands that start at `from`, follow each other without gap or overlap, and end open. */
  predicate Bands(tiers: seq<Tier>, from: int) {
    && tiers != [] && tiers[0].minAmount == from
    && if |tiers| == 1 then tiers[0].maxAmount.None?
       else
         var end := tiers[0].maxAmount;
         end.Some? && end.value >= from && Bands(tiers[1..], end.value + 1)
  }

  lemma {:induction false} BandsStartAt(tiers: seq<Tier>, from: int, j: nat)
    requires Bands(tiers, from) && j < |tiers|
    ensures tiers[j].minAmount >= from
  {
    if j > 0 { BandsStartAt(tiers[1..], tiers[0].maxAmount.value + 1, j - 1); }
  }

  lemma {:induction false} BandsMatchOnce(tiers: seq<Tier>, from: int, amount: int) returns (i: nat)
    requires Bands(tiers, from) && amount >= from
    ensures i < |tiers| && MatchesOnlyAt(tiers, amount, i)
  {
    if Matches(tiers[0], amount) {
      i := 0;
      forall j | 0 <= j < |tiers| && Matches(tiers[j], amount) ensures j == 0 {
        if j > 0 { BandsStartAt(tiers[1..], tiers[0].maxAmount.value + 1, j - 1); }
      }
    } else {
      i := BandsMatchOnce(tiers[1..], tiers[0].maxAmount.value + 1, amount);
      forall j | 0 <= j < |tiers| && Matches(tiers[j], amount) ensures j == i + 1 {
        assert j > 0 && tiers[1..][j - 1] == tiers[j];
      }
      i := i + 1;
    }
  }

  /** Contiguous bands from zero partition the non-negative amounts. */
  lemma BandsPartition(tiers: seq<Tier>)
    requires Bands(tiers, 0)
    ensures Partition(tiers)
  {
    forall amount | amount >= 0 ensures MatchesOnce(tiers, amount) {
      var i := BandsMatchOnce(tiers, 0, amount);
    }
  }

  lemma {:induction false} FindTierSound(tiers: seq<Tier>, amount: int)
    ensures FindTier(tiers, amount).Some? ==>
      FindTier(tiers, amount).value in tiers && Matches(FindTier(tiers, amount).value, amount)
    ensures FindTier(tiers, amount).None? ==> forall t :: t in tiers ==> !Matches(t, amount)
  {
    if tiers != [] {
      FindTierSound(tiers[1..], amount);
      assert tiers == [tiers[0]] + tiers[1..];
    }
  }

  /** If the tiers partition the amounts, the tier found is the only one that matches, however they are
      ordered, and the flat fallback is never used. */
  lemma TierLookupIgnoresOrder(tiers: seq<Tier>, reordered: seq<Tier>, amount: int)
    requires Partition(tiers) && multiset(tiers) == multiset(reordered) && amount >= 0
    ensures FindTier(tiers, amount).Some? && FindTier(reordered, amount) == FindTier(tiers, amount)
    ensures forall t :: t in tiers && Matches(t, amount) ==> FindTier(tiers, amount) == Some(t)
  {
    assert MatchesOnce(tiers, amount);
    var i :| 0 <= i < |tiers| && MatchesOnlyAt(tiers, amount, i);
    FindTierSound(tiers, amount);
    FindTierSound(reordered, amount);
    assert tiers[i] in multiset(reordered);
    forall t | t in reordered && Matches(t, amount) ensures t == tiers[i] {
      assert t in multiset(tiers);
    }
  }

  /** The tier matches some non-negative amount. */
  predicate InUse(tier: Tier) {
    tier.maxAmount.None? || (tier.maxAmount.value >= 0 && tier.maxAmount.value >= tier.minAmount)
  }

  predicate Rising(t: Tier, u: Tier) {
    InUse(t) && InUse(u) && t.minAmount <= u.minAmount ==> t.flatFee <= u.flatFee
  }

  /** Of two tiers in use the one that starts higher does not cost less, in whatever order they are listed. */
  ghost predicate RisingFees(tiers: seq<Tier>) {
    forall t, u :: t in tiers && u in tiers ==> Rising(t, u)
  }

  lemma OnlyTier(tiers: seq<Tier>, amount: int, t: Tier)
    requires Partition(tiers) && amount >= 0 && t in tiers && Matches(t, amount)
    ensures FindTier(tiers, amount) == Some(t)
  {
    TierLookupIgnoresOrder(tiers, tiers, amount);
  }

  lemma TierFeeMonotone(tiers: seq<Tier>, a: int, b: int)
    requires Partition(tiers) && RisingFees(tiers) && 0 <= a <= b
    ensures FindTier(tiers, a).Some? && FindTier(tiers, b).Some?
    ensures FindTier(tiers, a).value.flatFee <= FindTier(tiers, b).value.flatFee
  {
    TierLookupIgnoresOrder(tiers, tiers, a);
    TierLookupIgnoresOrder(tiers, tiers, b);
    FindTierSound(tiers, a);
    FindTierSound(tiers, b);
    var t, u := FindTier(tiers, a).value, FindTier(tiers, b).value;
    if u.minAmount < t.minAmount {
      OnlyTier(tiers, a, u);
    }
    assert Rising(t, u);
  }

  function FirstAmount(tier: Tier): int {
    if tier.minAmount > 0 then tier.minAmount else 0
  }

  // ----- monotonicity -----

  /** What makes a rule's base fee never fall as the amount grows. */
  ghost predicate Progressive(rule: Rule) {
    match rule.feeType
    case Flat => true
    case Percentage => rule.percentage >= 0
    case Tiered => RisingFees(rule.tiers)
  }

  /** Tiers, where there are any, partition the non-negative amounts. */
  ghost predicate WellTiered(rule: Rule) {
    rule.feeType == Tiered && rule.tiers != [] ==> Partition(rule.tiers)
  }

  lemma ScaledMonotone(a: int, b: int, factor: int)
    requires a <= b && factor >= 0
    ensures a * factor <= b * factor
  {
  }

  ghost predicate BaseFeeRises(rule: Rule) {
    forall a, b :: 0 <= a <= b ==> ComputeBaseFee(rule, a) <= ComputeBaseFee(rule, b)
  }

  lemma BaseFeeMonotone(rule: Rule, a: int, b: int)
    requires WellTiered(rule) && Progressive(rule) && 0 <= a <= b
    ensures ComputeBaseFee(rule, a) <= ComputeBaseFee(rule, b)
  {
    if rule.feeType == Percentage {
      ScaledMonotone(a, b, rule.percentage);
    } else if rule.feeType == Tiered && rule.tiers != [] {
      TierFeeMonotone(rule.tiers, a, b);
    }
  }

  lemma RisingBaseIsRising(rule: Rule, t: Tier, u: Tier)
    requires WellTiered(rule) && rule.feeType == Tiered && BaseFeeRises(rule) && t in rule.tiers && u in rule.tiers
    ensures Rising(t, u)
  {
    if InUse(t) && InUse(u) && t.minAmount <= u.minAmount {
      OnlyTier(rule.tiers, FirstAmount(t), t);
      OnlyTier(rule.tiers, FirstAmount(u), u);
      assert ComputeBaseFee(rule, FirstAmount(t)) <= ComputeBaseFee(rule, FirstAmount(u));
    }
  }

  /** With tiers that partition the amounts, in any order, the base fee never falls as the amount grows
      exactly when the percentage is not negative or the fees rise with the tiers' starts. */
  lemma BaseFeeRisesIff(rule: Rule)
    requires WellTiered(rule)
    ensures BaseFeeRises(rule) <==> Progressive(rule)
  {
    if Progressive(rule) {
      forall a, b | 0 <= a <= b ensures ComputeBaseFee(rule, a) <= ComputeBaseFee(rule, b) {
        BaseFeeMonotone(rule, a, b);
      }
    } else if rule.feeType == Percentage {
      assert ComputeBaseFee(rule, 0) == 0 && ComputeBaseFee(rule, PCT) == rule.percentage;
    } else if BaseFeeRises(rule) {
      forall t, u | t in rule.tiers && u in rule.tiers ensures Rising(t, u) { RisingBaseIsRising(rule, t, u); }
    }
  }

  /** Then, within a rule's range, a larger amount never costs a smaller total fee: floor, cap, rounding and
      tax all keep the order. */
  lemma TotalFeeMonotone(rule: Rule, a: int, b: int)
    requires WellTiered(rule) && Progressive(rule) && 0 <= a <= b && InRange(rule, a) && InRange(rule, b)
    ensures Charge(rule, a).totalFee <= Charge(rule, b).totalFee
  {
    BaseFeeMonotone(rule, a, b);
    var x, y := Charge(rule, a).baseFee, Charge(rule, b).baseFee;
    assert x <= y;
    if rule.taxRate > 0 {
      ScaledMonotone(x, y, rule.taxRate);
    }
  }

  // ----- when line items add up -----

  predicate Applies(rule: Rule, amount: int) {
    amount >= 0 && InRange(rule, amount)
  }

  ghost predicate AlwaysAddsUp(rule: Rule) {
    forall amount :: Applies(rule, amount) ==> SumItems(Charge(rule, amount).lineItems) == Charge(rule, amount).totalFee
  }

  /** The tax on this fee, once clamped, does not round below zero. */
  predicate TaxNotNegative(rule: Rule, fee: int) {
    2 * (Clamp(rule, fee) * rule.taxRate) + TAX >= 0
  }

  lemma AddsUpAt(rule: Rule, amount: int)
    ensures SumItems(Charge(rule, amount).lineItems) == Charge(rule, amount).totalFee
      <==> rule.taxRate <= 0 || TaxNotNegative(rule, ComputeBaseFee(rule, amount))
  {
    var b := Charge(rule, amount);
    if b.tax > 0 {
      assert b.lineItems[..1] == [BaseLine(b.baseFee)];
    }
    assert SumItems([BaseLine(b.baseFee)]) == b.baseFee;
    RoundTaxSign(b.baseFee * rule.taxRate);
  }

  lemma TaxRisesWithFee(rule: Rule, lower: int, higher: int)
    requires rule.taxRate > 0 && lower <= higher && TaxNotNegative(rule, lower)
    ensures TaxNotNegative(rule, higher)
  {
    ScaledMonotone(Clamp(rule, lower), Clamp(rule, higher), rule.taxRate);
  }

  /** The least amount a rule can apply to. */
  function LeastAmount(rule: Rule): int {
    if rule.minAmount > 0 then rule.minAmount else 0
  }

  predicate Unbounded(rule: Rule) {
    rule.maxAmount.None? || rule.maxAmount.value == 0
  }

  /** The amount at which a percentage's fee is least, where there is one. */
  function CheapestAmount(rule: Rule): int
    requires rule.percentage >= 0 || !Unbounded(rule)
  {
    if rule.percentage >= 0 then LeastAmount(rule) else rule.maxAmount.value
  }

  /** Where a tier starts or has just ended: between two of these the lookup does not change. */
  function Cuts(tiers: seq<Tier>): seq<int> {
    if tiers == [] then []
    else
      var end := tiers[0].maxAmount;
      [tiers[0].minAmount] + (if end.Some? then [end.value + 1] else []) + Cuts(tiers[1..])
  }

  /** Whether no tax of the rule rounds below zero, decided from its columns: at its lowest fee, which is the
      flat fee, the fee of the least or of the largest amount, or the floor of a fee that falls without end;
      for tiers, at the finitely many amounts where the tier can change. */
  predicate KeepsTaxUp(rule: Rule) {
    || rule.taxRate <= 0
    || !Applies(rule, LeastAmount(rule))
    || match rule.feeType
       case Flat => TaxNotNegative(rule, rule.flatAmount)
       case Percentage =>
         if rule.percentage < 0 && Unbounded(rule) then rule.floor.Some? && TaxNotNegative(rule, rule.floor.value)
         else TaxNotNegative(rule, ComputeBaseFee(rule, CheapestAmount(rule)))
       case Tiered => forall c :: c in [LeastAmount(rule)] + Cuts(rule.tiers) && Applies(rule, c) ==>
         TaxNotNegative(rule, ComputeBaseFee(rule, c))
  }

  // a percentage

  lemma NegativePercentageFallsBelow(rule: Rule, least: int) returns (amount: int)
    requires rule.feeType == Percentage && rule.percentage < 0
    ensures amount >= LeastAmount(rule) && ComputeBaseFee(rule, amount) <= least
  {
    var k := LeastAmount(rule) + (if least < 0 then -least else 0);
    amount := PCT * k;
    assert ComputeBaseFee(rule, amount) == k * rule.percentage by { ScaledPercentage(k, rule.percentage); }
    ScaledMonotone(rule.percentage, -1, k);
  }

  lemma ScaledPercentage(k: int, percentage: int)
    ensures RoundDiv(PCT * k * percentage, PCT) == k * percentage
  {
    assert PCT * k * percentage == PCT * (k * percentage);
  }

  lemma PercentageAddsUpIff(rule: Rule)
    requires rule.feeType == Percentage && rule.taxRate > 0 && Applies(rule, LeastAmount(rule))
    ensures (forall amount :: Applies(rule, amount) ==> TaxNotNegative(rule, ComputeBaseFee(rule, amount)))
      <==> KeepsTaxUp(rule)
  {
    if KeepsTaxUp(rule) {
      forall amount | Applies(rule, amount) ensures TaxNotNegative(rule, ComputeBaseFee(rule, amount)) {
        PercentageStaysUp(rule, amount);
      }
    } else if rule.percentage < 0 {
      if Unbounded(rule) {
        var amount := NegativePercentageFallsBelow(rule, if rule.floor.Some? then rule.floor.value else -TAX);
        assert Applies(rule, amount);
        if rule.floor.None? { ScaledMonotone(Clamp(rule, ComputeBaseFee(rule, amount)), -TAX, rule.taxRate); }
      } else {
        assert Applies(rule, rule.maxAmount.value);
      }
    }
  }

  lemma PercentageMonotone(percentage: int, a: int, b: int)
    requires if percentage >= 0 then a <= b else b <= a
    ensures RoundDiv(a * percentage, PCT) <= RoundDiv(b * percentage, PCT)
  {
    if percentage >= 0 { ScaledMonotone(a, b, percentage); } else { ScaledMonotone(b, a, -percentage); }
  }

  lemma PercentageStaysUp(rule: Rule, amount: int)
    requires rule.feeType == Percentage && rule.taxRate > 0 && KeepsTaxUp(rule) && Applies(rule, amount)
    requires Applies(rule, LeastAmount(rule))
    ensures TaxNotNegative(rule, ComputeBaseFee(rule, amount))
  {
    if rule.percentage >= 0 || !Unbounded(rule) {
      PercentageMonotone(rule.percentage, CheapestAmount(rule), amount);
      TaxRisesWithFee(rule, ComputeBaseFee(rule, CheapestAmount(rule)), ComputeBaseFee(rule, amount));
    } else if ComputeBaseFee(rule, amount) >= rule.floor.value {
      TaxRisesWithFee(rule, rule.floor.value, ComputeBaseFee(rule, amount));
    }
  }

  // tiers

  /** The last cut not above the amount, from `least` on. */
  function LastCut(cuts: seq<int>, least: int, amount: int): (c: int)
    requires least <= amount
    ensures least <= c <= amount && (c == least || c in cuts)
    ensures forall x :: x in cuts && x <= amount ==> x <= c
  {
    if cuts == [] then least
    else
      var c := LastCut(cuts[1..], least, amount);
      assert cuts == [cuts[0]] + cuts[1..];
      if c < cuts[0] <= amount then cuts[0] else c
  }

  /** With no cut in between, the lookup finds the same tier. */
  lemma {:induction false} SameTierBetweenCuts(tiers: seq<Tier>, c: int, amount: int)
    requires c <= amount && forall x :: x in Cuts(tiers) && x <= amount ==> x <= c
    ensures FindTier(tiers, c) == FindTier(tiers, amount)
  {
    if tiers != [] {
      var head := [tiers[0].minAmount] + if tiers[0].maxAmount.Some? then [tiers[0].maxAmount.value + 1] else [];
      assert Cuts(tiers) == head + Cuts(tiers[1..]);
      assert tiers[0].minAmount in head && tiers[0].minAmount in Cuts(tiers);
      assert tiers[0].maxAmount.Some? ==> head[1] == tiers[0].maxAmount.value + 1 && head[1] in Cuts(tiers);
      assert forall x :: x in Cuts(tiers[1..]) ==> x in Cuts(tiers);
      SameTierBetweenCuts(tiers[1..], c, amount);
    }
  }

  lemma TiersStayUp(rule: Rule, amount: int)
    requires rule.feeType == Tiered && KeepsTaxUp(rule) && rule.taxRate > 0
    requires Applies(rule, LeastAmount(rule)) && Applies(rule, amount)
    ensures TaxNotNegative(rule, ComputeBaseFee(rule, amount))
  {
    var c := LastCut(Cuts(rule.tiers), LeastAmount(rule), amount);
    SameTierBetweenCuts(rule.tiers, c, amount);
    assert c in [LeastAmount(rule)] + Cuts(rule.tiers);
  }

  /** Over all amounts a rule applies to, the line items sum to the total fee exactly when its columns keep
      every tax from rounding below zero: a negative tax is in the total but gets no line. */
  lemma LineItemsAddUpIff(rule: Rule)
    ensures AlwaysAddsUp(rule) <==> KeepsTaxUp(rule)
  {
    forall amount
      ensures SumItems(Charge(rule, amount).lineItems) == Charge(rule, amount).totalFee
        <==> rule.taxRate <= 0 || TaxNotNegative(rule, ComputeBaseFee(rule, amount))
    {
      AddsUpAt(rule, amount);
    }
    if rule.taxRate > 0 && Applies(rule, LeastAmount(rule)) {
      match rule.feeType
      case Flat =>
      case Percentage => PercentageAddsUpIff(rule);
      case Tiered =>
        if KeepsTaxUp(rule) {
          forall amount | Applies(rule, amount) ensures TaxNotNegative(rule, ComputeBaseFee(rule, amount)) {
            TiersStayUp(rule, amount);
          }
        }
    }
  }

  /** Rules whose amounts are none of them negative. */
  predicate NonNegative(rule: Rule) {
    && rule.flatAmount >= 0 && rule.percentage >= 0
    && (forall t :: t in rule.tiers ==> t.flatFee >= 0)
    && (rule.cap.Some? ==> rule.cap.value >= 0)
  }

  lemma NonNegativeBase(rule: Rule, amount: int)
    requires NonNegative(rule) && amount >= 0
    ensures Charge(rule, amount).baseFee >= 0
  {
    ScaledMonotone(0, amount, rule.percentage);
    FindTierSound(rule.tiers, amount);
  }

  /** Under such a rule the fee of a non-negative amount is not negative and its line items add up. */
  lemma NonNegativeRulesAddUp(rule: Rule, amount: int)
    requires NonNegative(rule) && amount >= 0
    ensures var b := Charge(rule, amount);
      b.baseFee >= 0 && b.tax >= 0 && SumItems(b.lineItems) == b.totalFee
  {
    NonNegativeBase(rule, amount);
    if rule.taxRate > 0 { ScaledMonotone(0, Charge(rule, amount).baseFee, rule.taxRate); }
    AddsUpAt(rule, amount);
  }

  /** For a percentage without floor, cap and limits on the amount the condition is its sign. */
  lemma PlainPercentageAddsUpIff(rule: Rule)
    requires PlainPercentage(rule) && rule.taxRate > 0 && rule.minAmount <= 0 && Unbounded(rule)
    ensures AlwaysAddsUp(rule) <==> rule.percentage >= 0
  {
    LineItemsAddUpIff(rule);
  }

  // ----- rounding -----

  lemma RoundNear(x: int)
    ensures 2 * x - PCT < 2 * PCT * RoundDiv(x, PCT) <= 2 * x + PCT
    ensures 2 * x - TAX < 2 * TAX * RoundDiv(x, TAX) <= 2 * x + TAX
  {
  }

  function Sum(parts: seq<int>): int {
    if parts == [] then 0 else Sum(parts[..|parts| - 1]) + parts[|parts| - 1]
  }

  function SumFees(rule: Rule, parts: seq<int>): int {
    if parts == [] then 0
    else SumFees(rule, parts[..|parts| - 1]) + Charge(rule, parts[|parts| - 1]).baseFee
  }

  predicate PlainPercentage(rule: Rule) {
    rule.feeType == Percentage && rule.floor.None? && rule.cap.None?
  }

  lemma {:induction false} SplitError(rule: Rule, parts: seq<int>)
    requires PlainPercentage(rule)
    ensures -|parts| * PCT <= 2 * (PCT * SumFees(rule, parts) - Sum(parts) * rule.percentage) <= |parts| * PCT
  {
    if parts != [] {
      var init, last := parts[..|parts| - 1], parts[|parts| - 1];
      SplitError(rule, init);
      RoundNear(last * rule.percentage);
      assert Sum(parts) * rule.percentage == Sum(init) * rule.percentage + last * rule.percentage;
    }
  }

  lemma SplitBound(n: int, summed: int, whole: int, x: int)
    requires -n * PCT <= 2 * (PCT * summed - x) <= n * PCT
    requires 2 * x - PCT < 2 * PCT * whole <= 2 * x + PCT
    ensures -(n + 1) <= 2 * (summed - whole) <= n + 1
  {
  }

  /** Splitting an amount into n parts changes the summed percentage fee by at most (n + 1) / 2 units. */
  lemma SplittingChangesLittle(rule: Rule, parts: seq<int>)
    requires PlainPercentage(rule)
    ensures -(|parts| + 1) <= 2 * (SumFees(rule, parts) - Charge(rule, Sum(parts)).baseFee) <= |parts| + 1
  {
    SplitError(rule, parts);
    RoundNear(Sum(parts) * rule.percentage);
    SplitBound(|parts|, SumFees(rule, parts), Charge(rule, Sum(parts)).baseFee, Sum(parts) * rule.percentage);
  }

  lemma TaxError(x: int, base: int, tax: int, rate: int)
    requires rate >= 0 && -PCT <= 2 * (PCT * base - x) <= PCT && -TAX <= 2 * (TAX * tax - base * rate) <= TAX
    ensures var error := PCT * TAX * (base + tax) - x * (TAX + rate);
      -(PCT * (TAX + rate) + PCT * TAX) <= 2 * error <= PCT * (TAX + rate) + PCT * TAX
  {
    var d, e := PCT * base - x, TAX * tax - base * rate;
    assert PCT * TAX * (base + tax) - x * (TAX + rate) == TAX * d + PCT * e + rate * d by {
      assert rate * d == PCT * (base * rate) - x * rate;
    }
    assert -(rate * PCT) <= 2 * (rate * d) <= rate * PCT by {
      ScaledMonotone(2 * d, PCT, rate);
      ScaledMonotone(-PCT, 2 * d, rate);
      assert 2 * d * rate == 2 * (rate * d);
    }
  }

  /** The total of a percentage rule is within (1 + t)/2 + 1/2 of the exact amount * p * (1 + t), here
      multiplied out: x = amount * percentage, and the rates are fractions of PCT and TAX. */
  lemma TotalFeeNearExact(rule: Rule, amount: int)
    requires PlainPercentage(rule) && rule.taxRate >= 0
    ensures var error := PCT * TAX * Charge(rule, amount).totalFee - amount * rule.percentage * (TAX + rule.taxRate);
      -(PCT * (TAX + rule.taxRate) + PCT * TAX) <= 2 * error <= PCT * (TAX + rule.taxRate) + PCT * TAX
  {
    var b := Charge(rule, amount);
    RoundNear(amount * rule.percentage);
    RoundNear(b.baseFee * rule.taxRate);
    TaxError(amount * rule.percentage, b.baseFee, b.tax, rule.taxRate);
  }

  // ----- the seeded rule -----

  /** The seeded NGN transfer rule: three bands, 7.5% VAT, capped at the last band's fee. */
  const NGN_INTERNAL := Rule(Tiered, 0, 0, Some(5000), None,
    [Tier(0, Some(500000), 1000), Tier(500001, Some(5000000), 2500), Tier(5000001, None, 5000)], 750, 0, None)

  /** 1000, 2500 or 5000 with VAT. */
  function SeededTotal(amount: int): int {
    if amount <= 500000 then 1075 else if amount <= 5000000 then 2688 else 5375
  }

  lemma SeededRuleIsProgressive()
    ensures Progressive(NGN_INTERNAL) && Partition(NGN_INTERNAL.tiers) && KeepsTaxUp(NGN_INTERNAL)
    ensures forall amount :: amount >= 0 ==>
      Charge(NGN_INTERNAL, amount).totalFee == SeededTotal(amount)
  {
    var tiers := NGN_INTERNAL.tiers;
    assert tiers[1..] == [Tier(500001, Some(5000000), 2500), Tier(5000001, None, 5000)];
    assert tiers[1..][1..] == [Tier(5000001, None, 5000)];
    assert Bands(tiers[1..][1..], 5000001);
    assert Bands(tiers[1..], 500001);
    BandsPartition(tiers);
    forall amount | amount >= 0
      ensures Charge(NGN_INTERNAL, amount).totalFee == SeededTotal(amount)
    {
      if amount > 500000 {
        assert FindTier(tiers, amount) == FindTier(tiers[1..], amount);
        if amount > 5000000 {
          assert FindTier(tiers[1..], amount) == FindTier(tiers[1..][1..], amount);
        }
      }
    }
  }
}
