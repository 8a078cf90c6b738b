/** The price breakdown of an order: `createPricingBreakdown` (packages/pricing/src/engine.ts).
    Amounts are whole cents, the rate is in basis points, and rounding is of the exact fraction. */
module Pricing {
  import opened Integers

  datatype PricingInput = PricingInput(
    itemSubtotal: int,
    itemDiscount: int,
    orderDiscount: int,
    deliveryFee: int,
    driverTip: int,
    walletApplied: int)

  datatype PricingPolicy = PricingPolicy(
    taxRateBps: int,
    taxDeliveryFee: bool,
    taxTip: bool,
    discountsReduceTaxableBase: bool)

  datatype PricingBreakdown = PricingBreakdown(
    itemSubtotal: int,
    discountedSubtotal: int,
    taxableSubtotal: int,
    tax: int,
    deliveryFee: int,
    driverTip: int,
    walletApplied: int,
    finalPayable: int)

  /** `Math.round(n / 10000)`: the nearest integer, halves going up. */
  function RoundedShare(n: int): int { (n + 5000) / 10000 }

  function Discounted(p: PricingInput): int {
    p.itemSubtotal - p.itemDiscount - p.orderDiscount
  }

  function Taxable(p: PricingInput, policy: PricingPolicy): int {
    Max(0, (if policy.discountsReduceTaxableBase then Discounted(p) else p.itemSubtotal)
           + (if policy.taxDeliveryFee then p.deliveryFee else 0)
           + (if policy.taxTip then p.driverTip else 0))
  }

  function Tax(taxable: int, rate: int): int {
    Max(0, RoundedShare(taxable * rate))
  }

  /** What would be paid if nothing were capped at zero. */
  function Owed(p: PricingInput, policy: PricingPolicy): int {
    Discounted(p) + p.deliveryFee + p.driverTip + Tax(Taxable(p, policy), policy.taxRateBps) - p.walletApplied
  }

  function CreatePricingBreakdown(p: PricingInput, policy: PricingPolicy): PricingBreakdown {
    PricingBreakdown(
      p.itemSubtotal,
      Max(0, Discounted(p)),
      Taxable(p, policy),
      Tax(Taxable(p, policy), policy.taxRateBps),
      p.deliveryFee,
      p.driverTip,
      p.walletApplied,
      Max(0, Owed(p, policy)))
  }

  // ----- what is taxed

  /** The breakdown repeats the subtotal, the fee, the tip and the wallet amount, and takes both
      discounts off the subtotal, down to nothing. */
  lemma {:induction false} LinesAreInput(p: PricingInput, policy: PricingPolicy)
    ensures var b := CreatePricingBreakdown(p, policy);
            && b.itemSubtotal == p.itemSubtotal && b.deliveryFee == p.deliveryFee && b.driverTip == p.driverTip
            && b.walletApplied == p.walletApplied
            && (if p.itemDiscount + p.orderDiscount <= p.itemSubtotal
                then b.discountedSubtotal + p.itemDiscount + p.orderDiscount == p.itemSubtotal
                else b.discountedSubtotal == 0)
  {
  }

  /** How the taxable amount follows the input while it is positive: with the subtotal cent for cent,
      against both discounts if the policy says that discounts reduce it, with the delivery fee and with
      the tip if the policy taxes them, and never with the wallet. */
  lemma {:induction false} TaxableFollows(p: PricingInput, q: PricingInput, policy: PricingPolicy)
    requires CreatePricingBreakdown(p, policy).taxableSubtotal > 0 && CreatePricingBreakdown(q, policy).taxableSubtotal > 0
    ensures var a, b := CreatePricingBreakdown(p, policy).taxableSubtotal, CreatePricingBreakdown(q, policy).taxableSubtotal;
            var reduced := p.itemDiscount + p.orderDiscount - (q.itemDiscount + q.orderDiscount);
            var fee, tip := q.deliveryFee - p.deliveryFee, q.driverTip - p.driverTip;
            b - a == q.itemSubtotal - p.itemSubtotal
                     + (if policy.discountsReduceTaxableBase then reduced else 0)
                     + (if policy.taxDeliveryFee then fee else 0)
                     + (if policy.taxTip then tip else 0)
  {
  }

  /** Goods alone are taxable in full, and an amount that discounts use up is not taxed at all. */
  lemma {:induction false} TaxableAtRest(p: PricingInput, policy: PricingPolicy)
    requires p.deliveryFee == p.driverTip == 0 && p.itemSubtotal >= 0
    ensures var b := CreatePricingBreakdown(p, policy);
            && (p.itemDiscount + p.orderDiscount == 0 ==> b.taxableSubtotal == p.itemSubtotal)
            && (p.itemDiscount + p.orderDiscount >= p.itemSubtotal && policy.discountsReduceTaxableBase ==>
                  b.taxableSubtotal == 0 && b.tax == 0)
  {
  }

  // ----- tax

  /** The tax is within half a cent of the exact rate, and never negative. */
  lemma {:induction false} TaxWithinHalfCent(p: PricingInput, policy: PricingPolicy)
    requires policy.taxRateBps >= 0
    ensures var b := CreatePricingBreakdown(p, policy);
            b.taxableSubtotal * policy.taxRateBps - 5000 < b.tax * 10000 <= b.taxableSubtotal * policy.taxRateBps + 5000
            && b.tax >= 0
  {
    assert Taxable(p, policy) * policy.taxRateBps >= 0 by { Product(Taxable(p, policy), policy.taxRateBps); }
  }

  lemma {:induction false} Product(a: int, b: int)
    requires a >= 0 && b >= 0
    ensures a * b >= 0
  {
  }

  /** No other whole number of cents is nearer, unless two are equally near. */
  lemma {:induction false} TaxIsNearest(taxable: int, rate: int, cents: int)
    requires taxable >= 0 && rate >= 0
    ensures var exact := taxable * rate; var t := 10000 * Tax(taxable, rate) - exact; var c := 10000 * cents - exact;
            Max(t, -t) <= Max(c, -c)
  {
    Product(taxable, rate);
  }

  lemma {:induction false} TaxMonotone(a: int, b: int, rate: int)
    requires 0 <= a <= b
    ensures Tax(a, rate) <= Tax(b, rate)
    ensures rate >= 0 ==> 10000 * (Tax(b, rate) - Tax(a, rate)) < (b - a) * rate + 10000
  {
    assert b * rate == a * rate + (b - a) * rate;
    if rate >= 0 {
      Product(b - a, rate);
      Product(a, rate);
    } else {
      Product(b, -rate);
      assert b * rate == -(b * -rate);
      assert Tax(b, rate) == 0;
      Product(a, -rate);
      assert a * rate == -(a * -rate);
    }
  }

  /** Taxing two amounts apart or together differs by at most one cent. */
  lemma {:induction false} TaxSplit(a: int, b: int, rate: int)
    requires a >= 0 && b >= 0
    ensures -1 <= Tax(a + b, rate) - (Tax(a, rate) + Tax(b, rate)) <= 1
  {
    assert (a + b) * rate == a * rate + b * rate;
    if rate >= 0 {
      Product(a, rate);
      Product(b, rate);
    } else {
      Product(a, -rate);
      Product(b, -rate);
      assert a * rate == -(a * -rate) && b * rate == -(b * -rate);
    }
  }

  // ----- discounts

  /** A further discount, on items or on the order. */
  function Further(p: PricingInput, onItems: int, onOrder: int): PricingInput {
    p.(itemDiscount := p.itemDiscount + onItems, orderDiscount := p.orderDiscount + onOrder)
  }

  lemma {:induction false} TaxableAfterDiscount(p: PricingInput, policy: PricingPolicy, onItems: int, onOrder: int)
    requires onItems + onOrder >= 0
    ensures Taxable(p, policy) - (onItems + onOrder) <= Taxable(Further(p, onItems, onOrder), policy) <= Taxable(p, policy)
  {
  }

  /** Whatever the rate and the policy, a further discount of d takes at least d off the payable
      amount, down to nothing; with a rate that is not negative it takes off at most d, the tax on d
      and a cent of rounding. How the discount is divided between items and order is immaterial. */
  lemma {:induction false} DiscountLowersPayable(p: PricingInput, policy: PricingPolicy, onItems: int, onOrder: int)
    requires onItems + onOrder >= 0
    ensures var d := onItems + onOrder;
            var before := CreatePricingBreakdown(p, policy).finalPayable;
            var after := CreatePricingBreakdown(Further(p, onItems, onOrder), policy).finalPayable;
            after <= Max(0, before - d)
            && (policy.taxRateBps >= 0 ==> 10000 * (before - after) <= 10000 * (d + 1) + d * policy.taxRateBps)
  {
    var d, rate := onItems + onOrder, policy.taxRateBps;
    var a, b := Taxable(Further(p, onItems, onOrder), policy), Taxable(p, policy);
    TaxableAfterDiscount(p, policy, onItems, onOrder);
    TaxMonotone(a, b, rate);
    if rate >= 0 {
      Product(d - (b - a), rate);
      assert d * rate == (d - (b - a)) * rate + (b - a) * rate;
      Product(d, rate);
    }
  }

  // ----- adding up

  /** The printed lines add up to the printed total in exactly these cases: the discounts leave
      something of the subtotal and the wallet does not exceed what is owed, or the discounts exceed
      the subtotal and the wallet pays for fee, tip and tax to the cent. */
  lemma {:induction false} LinesAddUp(p: PricingInput, policy: PricingPolicy)
    ensures var b := CreatePricingBreakdown(p, policy);
            (b.discountedSubtotal + b.deliveryFee + b.driverTip + b.tax - b.walletApplied == b.finalPayable) <==>
            if p.itemDiscount + p.orderDiscount <= p.itemSubtotal
            then p.walletApplied <= p.itemSubtotal - p.itemDiscount - p.orderDiscount + b.deliveryFee + b.driverTip + b.tax
            else p.walletApplied == b.deliveryFee + b.driverTip + b.tax
  {
    hide Tax, Taxable;
  }

  /** Both ways the lines can fail to add up: more discount than subtotal, more wallet than total. */
  lemma {:induction false} LinesNeedNotAddUp()
    ensures var policy := PricingPolicy(1300, true, false, true);
            var tooMuchDiscount := CreatePricingBreakdown(PricingInput(1000, 1200, 0, 500, 0, 0), policy);
            var tooMuchWallet := CreatePricingBreakdown(PricingInput(1000, 0, 0, 0, 0, 1200), policy);
            tooMuchDiscount.discountedSubtotal + tooMuchDiscount.deliveryFee + tooMuchDiscount.tax
              == tooMuchDiscount.finalPayable + 200
            && tooMuchWallet.finalPayable == 0 && tooMuchWallet.discountedSubtotal + tooMuchWallet.tax == 1130
  {
  }
}
