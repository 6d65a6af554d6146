/** Plans, allowances and products: the constant tables and the rows that may override them. */
module PricingCatalog {
  import opened Wrappers

  datatype Plan = Free | OwnerPlus | Premium

  function Rank(plan: Plan): int {
    match plan
    case Free => 0
    case OwnerPlus => 1
    case Premium => 2
  }

  type PaidPlan = p: Plan | p != Free witness OwnerPlus

  datatype Billing = Monthly | Yearly | OneTime

  datatype EntitlementType = ActiveListing | MatchedOffer | AiOptimizerUse

  datatype Allowances = Allowances(activeListings: nat, offers: nat, aiUses: nat, boostCredits: nat,
      boostDurationDays: nat)

  const PLAN_BOOST_DURATION_DAYS := 7
  const LISTING_CAPACITY_GRACE_DAYS := 7

  function DefaultAllowances(plan: Plan): Allowances {
    match plan
    case Free => Allowances(1, 5, 5, 0, PLAN_BOOST_DURATION_DAYS)
    case OwnerPlus => Allowances(3, 30, 10, 1, PLAN_BOOST_DURATION_DAYS)
    case Premium => Allowances(10, 100, 30, 2, PLAN_BOOST_DURATION_DAYS)
  }

  /** The saved plan configuration rows; a plan without one has its default allowances. */
  type PlanConfiguration = map<Plan, Allowances>

  function PlanAllowances(saved: PlanConfiguration, plan: Plan): Allowances {
    if plan in saved then saved[plan] else DefaultAllowances(plan)
  }

  /** A stored payment type: a catalogue product, a retired one with a successor, or one without. */
  datatype PaymentType =
    | OwnerPlusMonthly | OwnerPlusYearly | PremiumMonthly | PremiumYearly
    | ExtraListing60D | Offers10For60D | Boost7D | Boost14D | Boost30D | AiUses10For90D
    | PremiumOwner | OwnerPlusRetired | SingleListing | SingleOffer | BoostListing | AiAddon
    | Uncatalogued

  /** The catalogue product a payment settles as. */
  function SettlesAs(paymentType: PaymentType): Option<PaymentType> {
    match paymentType
    case PremiumOwner => Some(PremiumMonthly)
    case OwnerPlusRetired => Some(OwnerPlusMonthly)
    case SingleListing => Some(ExtraListing60D)
    case SingleOffer => Some(Offers10For60D)
    case BoostListing => Some(Boost30D)
    case AiAddon => Some(AiUses10For90D)
    case Uncatalogued => None
    case _ => Some(paymentType)
  }

  datatype Kind = SUBSCRIPTION | ENTITLEMENT | BOOST

  /** A resolved product. A field its kind does not use, or that a stored snapshot lacks, is None or 0. */
  datatype Product = Product(
    priceEgp: nat,
    kind: Kind,
    billing: Billing,
    planType: Option<PaidPlan>,
    entitlementType: Option<EntitlementType>,
    quantity: nat,
    validityDays: nat,
    durationDays: nat)

  function DefaultProduct(paymentType: PaymentType): Product {
    match paymentType
    case OwnerPlusMonthly => Product(299, SUBSCRIPTION, Monthly, Some(OwnerPlus), None, 0, 0, 0)
    case OwnerPlusYearly => Product(2_990, SUBSCRIPTION, Yearly, Some(OwnerPlus), None, 0, 0, 0)
    case PremiumMonthly => Product(699, SUBSCRIPTION, Monthly, Some(Premium), None, 0, 0, 0)
    case PremiumYearly => Product(6_990, SUBSCRIPTION, Yearly, Some(Premium), None, 0, 0, 0)
    case ExtraListing60D => Product(99, ENTITLEMENT, OneTime, None, Some(ActiveListing), 1, 60, 0)
    case Offers10For60D => Product(49, ENTITLEMENT, OneTime, None, Some(MatchedOffer), 10, 60, 0)
    case AiUses10For90D => Product(39, ENTITLEMENT, OneTime, None, Some(AiOptimizerUse), 10, 90, 0)
    case Boost7D => Product(79, BOOST, OneTime, None, None, 0, 0, 7)
    case Boost14D => Product(149, BOOST, OneTime, None, None, 0, 0, 14)
    case _ => Product(249, BOOST, OneTime, None, None, 0, 0, 30)
  }

  /** A dearer plan allows more of everything, a year costs ten months, and a longer boost costs less by the day. */
  lemma {:induction false} CatalogueIsGraded()
    ensures var free, plus := DefaultAllowances(Free), DefaultAllowances(OwnerPlus);
            var premium := DefaultAllowances(Premium);
            && free == Allowances(1, 5, 5, 0, 7)
            && free.activeListings < plus.activeListings == 3 < premium.activeListings == 10
            && free.offers < plus.offers == 30 < premium.offers == 100
            && free.aiUses < plus.aiUses == 10 < premium.aiUses == 30
            && free.boostCredits < plus.boostCredits == 1 < premium.boostCredits == 2
            && free.boostDurationDays == plus.boostDurationDays == premium.boostDurationDays
    ensures forall plan: PaidPlan ::
              var (month, year) := SubscriptionsTo(plan);
              && DefaultProduct(month).planType == DefaultProduct(year).planType == Some(plan)
              && DefaultProduct(month).kind == DefaultProduct(year).kind == SUBSCRIPTION
              && DefaultProduct(month).billing == Monthly && DefaultProduct(year).billing == Yearly
              && DefaultProduct(year).priceEgp == 10 * DefaultProduct(month).priceEgp
              && DefaultProduct(month).priceEgp == if plan == Premium then 699 else 299
    ensures forall t | t in {Boost7D, Boost14D, Boost30D} ::
              DefaultProduct(t).kind == BOOST && DefaultProduct(t).durationDays == BoostDays(t)
    ensures DefaultProduct(Boost14D).priceEgp < 2 * DefaultProduct(Boost7D).priceEgp
    ensures 14 * DefaultProduct(Boost30D).priceEgp < 30 * DefaultProduct(Boost14D).priceEgp
  {
  }

  function BoostDays(t: PaymentType): nat {
    if t == Boost7D then 7 else if t == Boost14D then 14 else 30
  }

  function SubscriptionsTo(plan: PaidPlan): (PaymentType, PaymentType) {
    if plan == Premium then (PremiumMonthly, PremiumYearly) else (OwnerPlusMonthly, OwnerPlusYearly)
  }

  /** A payment type of earlier times settles as the product of the same plan, kind of unit or length of boost. */
  lemma {:induction false} RetiredTypesKeepTheirMeaning(t: PaymentType)
    ensures SettlesAs(t).None? <==> t == Uncatalogued
    ensures SettlesAs(t).Some? ==> SettlesAs(SettlesAs(t).value) == SettlesAs(t)
    ensures t in {PremiumOwner, OwnerPlusRetired} ==>
              var p := DefaultProduct(SettlesAs(t).value);
              p.billing == Monthly && p.planType == Some(if t == PremiumOwner then Premium else OwnerPlus)
    ensures t == BoostListing ==> DefaultProduct(SettlesAs(t).value).durationDays == 30
    ensures t in {SingleListing, SingleOffer, AiAddon} ==>
              var p := DefaultProduct(SettlesAs(t).value);
              && p.kind == ENTITLEMENT
              && p.entitlementType == Some(if t == SingleListing then ActiveListing
                                           else if t == SingleOffer then MatchedOffer else AiOptimizerUse)
              && (t == SingleListing ==> p.quantity == 1 && p.validityDays == 60)
              && (t == SingleOffer ==> p.quantity == 10 && p.validityDays == 60)
              && (t == AiAddon ==> p.quantity == 10 && p.validityDays == 90)
  {
  }

  /** What an administrator may override; what the product means stays with the catalogue. */
  datatype ProductOverride = ProductOverride(
    priceEgp: nat,
    enabled: bool,
    quantity: Option<nat>,
    validityDays: Option<nat>,
    durationDays: Option<nat>)

  /** Whether the product can be bought at present. */
  predicate Enabled(overrides: map<PaymentType, ProductOverride>, paymentType: PaymentType) {
    paymentType in overrides ==> overrides[paymentType].enabled
  }

  function Or(saved: Option<nat>, fallback: nat): nat {
    match saved case Some(n) => n case None => fallback
  }

  function ResolvedProduct(overrides: map<PaymentType, ProductOverride>, paymentType: PaymentType): Product {
    if paymentType !in overrides then DefaultProduct(paymentType)
    else
      var o := overrides[paymentType];
      var p := DefaultProduct(paymentType).(priceEgp := o.priceEgp);
      match p.kind
      case SUBSCRIPTION => p
      case ENTITLEMENT => p.(quantity := Or(o.quantity, p.quantity), validityDays := Or(o.validityDays, p.validityDays))
      case BOOST => p.(durationDays := Or(o.durationDays, p.durationDays))
  }

  /** What checkout stored with the transaction, as far as it still parses. */
  datatype Snapshot = Snapshot(product: Product, planAllowances: Option<Allowances>)
}
