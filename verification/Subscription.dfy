/** One owner's quota row: the lazy monthly rollover and the settlement of a paid subscription. */
module Subscription {
  import opened Wrappers
  import opened Calendar
  import opened PricingCatalog

  datatype UserQuota = UserQuota(
    planType: Plan,
    planExpiresAt: Option<int>,
    billingInterval: Option<Billing>,
    pendingPlanType: Option<Plan>,
    pendingBillingInterval: Option<Billing>,
    pendingPlanStartsAt: Option<int>,
    pendingPlanExpiresAt: Option<int>,
    maxActiveListings: int,
    freeOffersLeft: int,
    optimizerUsesLeft: int,
    boostCreditsLeft: int,
    currentPeriodStartsAt: Option<int>,
    currentPeriodEndsAt: Option<int>,
    listingGraceEndsAt: Option<int>,
    lastResetDate: int)
  {
    predicate PlanExpired(now: int) {
      planType != Free && (planExpiresAt.None? || planExpiresAt.value <= now)
    }

    predicate PendingDue(now: int) {
      && PlanExpired(now)
      && pendingPlanType.Some?
      && pendingPlanStartsAt.Some? && pendingPlanStartsAt.value <= now
      && pendingPlanExpiresAt.Some? && pendingPlanExpiresAt.value > now
    }

    predicate PeriodExpired(now: int) {
      currentPeriodEndsAt.None? || currentPeriodEndsAt.value <= now || currentPeriodStartsAt.None?
    }

    function PlanAt(now: int): Plan {
      if PendingDue(now) then pendingPlanType.value else if PlanExpired(now) then Free else planType
    }

    function PlanExpiryAt(now: int): Option<int> {
      if PendingDue(now) then pendingPlanExpiresAt else if PlanExpired(now) then None else planExpiresAt
    }
  }

  function Refill(q: UserQuota, a: Allowances): UserQuota {
    q.(maxActiveListings := a.activeListings, freeOffersLeft := a.offers,
       optimizerUsesLeft := a.aiUses, boostCreditsLeft := a.boostCredits)
  }

  function NewQuota(now: int, saved: PlanConfiguration): UserQuota {
    Refill(UserQuota(Free, None, None, None, None, None, None, 0, 0, 0, 0, Some(now), Some(AddMonth(now)), None, now),
           PlanAllowances(saved, Free))
  }

  function PeriodEnd(plan: Plan, planExpiresAt: Option<int>, now: int): int {
    var end := AddMonth(now);
    if plan != Free && planExpiresAt.Some? && planExpiresAt.value < end then planExpiresAt.value else end
  }

  function EnsureCurrentPeriod(row: Option<UserQuota>, now: int, saved: PlanConfiguration): UserQuota {
    if row.None? then NewQuota(now, saved)
    else
      var q := row.value;
      if !q.PlanExpired(now) && !q.PeriodExpired(now) then q
      else
        var pending := q.PendingDue(now);
        var plan, expiry := q.PlanAt(now), q.PlanExpiryAt(now);
        Refill(q.(planType := plan,
                  planExpiresAt := expiry,
                  billingInterval := if pending then q.pendingBillingInterval else if q.PlanExpired(now) then None
                    else q.billingInterval,
                  pendingPlanType := if pending then None else q.pendingPlanType,
                  pendingBillingInterval := if pending then None else q.pendingBillingInterval,
                  pendingPlanStartsAt := if pending then None else q.pendingPlanStartsAt,
                  pendingPlanExpiresAt := if pending then None else q.pendingPlanExpiresAt,
                  currentPeriodStartsAt := Some(now),
                  currentPeriodEndsAt := Some(PeriodEnd(plan, expiry, now)),
                  lastResetDate := now),
               PlanAllowances(saved, plan))
  }

  function DurationEnd(billing: Billing, start: int): int {
    if billing == Yearly then AddYear(start) else AddMonth(start)
  }

  predicate PlanActive(row: Option<UserQuota>, now: int) {
    row.Some? && row.value.planExpiresAt.Some? && row.value.planExpiresAt.value > now
  }

  function SettleSubscription(row: Option<UserQuota>, target: Plan, billing: Billing, paidAt: int,
      a: Allowances): UserQuota
  {
    var targetRank := if target == Premium then 2 else 1;
    var currentRank := if row.None? then 0 else Rank(row.value.planType);
    if PlanActive(row, paidAt) && targetRank < currentRank then
      var start := row.value.planExpiresAt.value;
      row.value.(pendingPlanType := Some(target),
                 pendingBillingInterval := Some(billing),
                 pendingPlanStartsAt := Some(start),
                 pendingPlanExpiresAt := Some(DurationEnd(billing, start)))
    else if PlanActive(row, paidAt) && targetRank == currentRank then
      row.value.(planExpiresAt := Some(DurationEnd(billing, row.value.planExpiresAt.value)),
                 billingInterval := Some(billing))
    else
      var grace := if row.Some? then row.value.listingGraceEndsAt else None;
      Refill(UserQuota(target, Some(DurationEnd(billing, paidAt)), Some(billing), None, None, None, None, 0, 0, 0, 0,
                       Some(paidAt), Some(AddMonth(paidAt)), grace, paidAt), a)
  }

  predicate PendingConsistent(q: UserQuota) {
    || (q.pendingPlanType.None? && q.pendingBillingInterval.None? && q.pendingPlanStartsAt.None?
       && q.pendingPlanExpiresAt.None?)
    || (&& q.pendingPlanType == Some(OwnerPlus) && q.planType != OwnerPlus
        && q.pendingBillingInterval.Some?
        && q.pendingPlanStartsAt.Some? && q.pendingPlanExpiresAt.Some?
        && q.pendingPlanStartsAt.value < q.pendingPlanExpiresAt.value)
  }

  predicate BalancesNonNegative(q: UserQuota) {
    q.maxActiveListings >= 0 && q.freeOffersLeft >= 0 && q.optimizerUsesLeft >= 0 && q.boostCreditsLeft >= 0
  }

  /** A purchase by the year runs to the same date of the next year, any other to the same date of the next month. */
  predicate Lasts(billing: Billing, start: int, end: int) {
    if billing == Yearly then end == AddYear(start) && AddDays(start, 365) <= end <= AddDays(start, 366)
    else end == AddMonth(start) && AddDays(start, 28) <= end <= AddDays(start, 31)
  }

  /** Nothing of the month's allowances has been used. */
  predicate Full(q: UserQuota, a: Allowances) {
    && q.maxActiveListings == a.activeListings && q.freeOffersLeft == a.offers
    && q.optimizerUsesLeft == a.aiUses && q.boostCreditsLeft == a.boostCredits
  }

  /** What every quota row satisfies, whichever calls made it. */
  predicate QuotaInv(q: UserQuota) {
    && (q.planType == Free <==> q.planExpiresAt.None?)
    && (q.planType == Free <==> q.billingInterval.None?)
    && q.currentPeriodStartsAt.Some? && q.currentPeriodEndsAt.Some?
    && q.currentPeriodStartsAt == Some(q.lastResetDate)
    && q.lastResetDate < q.currentPeriodEndsAt.value <= AddDays(q.lastResetDate, 31)
    && (q.planExpiresAt.Some? ==> q.currentPeriodEndsAt.value <= q.planExpiresAt.value)
    && PendingConsistent(q)
    && BalancesNonNegative(q)
  }

  lemma {:induction false} EnsureKeepsInv(row: Option<UserQuota>, now: int, saved: PlanConfiguration)
    requires row.Some? ==> QuotaInv(row.value)
    ensures QuotaInv(EnsureCurrentPeriod(row, now, saved))
  {
    AddYearSpan(now);
    AddMonthSpan(now);
  }

  /** Afterwards the period, and any paid plan, lies in the future. */
  lemma {:induction false} EnsureLeavesLivePeriod(row: Option<UserQuota>, now: int, saved: PlanConfiguration)
    requires row.Some? ==> QuotaInv(row.value)
    ensures var q := EnsureCurrentPeriod(row, now, saved);
            && q.currentPeriodEndsAt.Some? && now < q.currentPeriodEndsAt.value
            && (q.planType != Free ==> q.planExpiresAt.Some? && now < q.planExpiresAt.value)
  {
    AddYearSpan(now);
  }

  lemma {:induction false} EnsureIsIdempotent(row: Option<UserQuota>, now: int, saved: PlanConfiguration)
    requires row.Some? ==> QuotaInv(row.value)
    ensures var q := EnsureCurrentPeriod(row, now, saved); EnsureCurrentPeriod(Some(q), now, saved) == q
  {
    EnsureKeepsInv(row, now, saved);
    EnsureLeavesLivePeriod(row, now, saved);
  }

  lemma {:induction false} EnsureNeverRaisesRank(q: UserQuota, now: int, saved: PlanConfiguration)
    requires QuotaInv(q)
    ensures Rank(EnsureCurrentPeriod(Some(q), now, saved).planType) <= Rank(q.planType)
  {
  }

  function EarlierOf(t: int, limit: Option<int>): int {
    if limit.Some? && limit.value < t then limit.value else t
  }

  /** A month of the plan's allowances begins, or what is left of the plan where that is shorter. */
  predicate FreshMonth(q: UserQuota, now: int, saved: PlanConfiguration) {
    && q.currentPeriodStartsAt == Some(now) && q.lastResetDate == now
    && q.currentPeriodEndsAt == Some(EarlierOf(AddMonth(now), q.planExpiresAt))
    && Full(q, PlanAllowances(saved, q.planType))
  }

  /** An owner who has no row yet gets one on the FREE plan, with a month of its allowances. */
  lemma {:induction false} FirstPeriodIsFree(now: int, saved: PlanConfiguration)
    ensures var q := EnsureCurrentPeriod(None, now, saved);
            && q.planType == Free && q.planExpiresAt.None? && q.pendingPlanType.None? && q.listingGraceEndsAt.None?
            && FreshMonth(q, now, saved)
  {
  }

  /** Whatever the plan and however it is paid for: 31 days after the last reset a call finds full balances again. */
  lemma {:induction false} BalancesReturnMonthly(q: UserQuota, now: int, saved: PlanConfiguration)
    requires QuotaInv(q) && AddDays(q.lastResetDate, 31) <= now
    ensures var r := EnsureCurrentPeriod(Some(q), now, saved);
            r.lastResetDate == now && Full(r, PlanAllowances(saved, r.planType))
  {
    EnsureResets(q, now, saved);
  }

  /**
   A live period is left alone; a lapsed one starts afresh at `now`, and nothing unspent
   is carried over. A plan that has run out gives way to the pending one, or to FREE.
   */
  lemma {:induction false} EnsureResets(q: UserQuota, now: int, saved: PlanConfiguration)
    requires QuotaInv(q)
    ensures var r := EnsureCurrentPeriod(Some(q), now, saved);
            && r.listingGraceEndsAt == q.listingGraceEndsAt
            && (now < q.currentPeriodEndsAt.value ==> r == q)
            && (q.PlanExpired(now) && !q.PendingDue(now) ==>
                  r.planType == Free && r.planExpiresAt.None? && r.billingInterval.None?)
            && (q.PendingDue(now) ==> r.planType == OwnerPlus)
            && (now >= q.currentPeriodEndsAt.value ==>
                  && FreshMonth(r, now, saved)
                  && (q.planExpiresAt.Some? && now < q.planExpiresAt.value ==>
                        r.planType == q.planType && r.planExpiresAt == q.planExpiresAt
                        && r.pendingPlanType == q.pendingPlanType)
                  && (r.planType == OwnerPlus && q.planType == Premium ==>
                        r.planExpiresAt == q.pendingPlanExpiresAt && r.billingInterval == q.pendingBillingInterval
                        && q.pendingPlanStartsAt.value <= now && r.pendingPlanType.None?))
  {
  }

  lemma {:induction false} PurchaseOnLivePlanKeepsInv(q: UserQuota, target: Plan, billing: Billing, paidAt: int,
      a: Allowances)
    requires QuotaInv(q) && PlanActive(Some(q), paidAt) && target != Free && billing != OneTime
             && Rank(target) <= Rank(q.planType)
    ensures QuotaInv(SettleSubscription(Some(q), target, billing, paidAt, a))
  {
    AddYearSpan(q.planExpiresAt.value);
  }

  lemma {:induction false} StartedPlanKeepsInv(row: Option<UserQuota>, target: Plan, billing: Billing, paidAt: int,
      a: Allowances)
    requires target != Free && billing != OneTime
    requires !PlanActive(row, paidAt) || Rank(row.value.planType) < Rank(target)
    ensures QuotaInv(SettleSubscription(row, target, billing, paidAt, a))
  {
    AddYearSpan(paidAt);
    AddMonthSpan(paidAt);
  }

  lemma {:induction false} SettleKeepsInv(row: Option<UserQuota>, target: Plan, billing: Billing, paidAt: int,
      a: Allowances)
    requires row.Some? ==> QuotaInv(row.value)
    requires target != Free && billing != OneTime
    ensures QuotaInv(SettleSubscription(row, target, billing, paidAt, a))
  {
    if PlanActive(row, paidAt) && Rank(target) <= Rank(row.value.planType) {
      PurchaseOnLivePlanKeepsInv(row.value, target, billing, paidAt, a);
    } else {
      StartedPlanKeepsInv(row, target, billing, paidAt, a);
    }
  }

  /**
   A purchase on a live plan never lowers it: a smaller plan waits for its end and runs its own time from
   there, the same plan is prolonged from its end by the time bought.
   */
  lemma {:induction false} SettleOnLivePlan(q: UserQuota, target: Plan, billing: Billing, paidAt: int, a: Allowances)
    requires QuotaInv(q) && PlanActive(Some(q), paidAt) && target != Free
    ensures var r := SettleSubscription(Some(q), target, billing, paidAt, a);
            && Rank(r.planType) == (if Rank(target) > Rank(q.planType) then Rank(target) else Rank(q.planType))
            && (target == q.planType ==>
                  && r.planExpiresAt.Some? && Lasts(billing, q.planExpiresAt.value, r.planExpiresAt.value)
                  && r == q.(planExpiresAt := r.planExpiresAt, billingInterval := Some(billing)))
            && (Rank(target) < Rank(q.planType) ==>
                  && r.pendingPlanExpiresAt.Some?
                  && Lasts(billing, q.planExpiresAt.value, r.pendingPlanExpiresAt.value)
                  && r == q.(pendingPlanType := Some(target), pendingBillingInterval := Some(billing),
                             pendingPlanStartsAt := q.planExpiresAt, pendingPlanExpiresAt := r.pendingPlanExpiresAt))
  {
    AddYearSpan(q.planExpiresAt.value);
    AddMonthSpan(q.planExpiresAt.value);
  }

  /** Otherwise the bought plan starts at once with a full month of its allowances and nothing pending. */
  lemma {:induction false} SettleStartsPlan(row: Option<UserQuota>, target: Plan, billing: Billing, paidAt: int,
      a: Allowances)
    requires row.Some? ==> QuotaInv(row.value)
    requires target != Free
    requires !PlanActive(row, paidAt) || Rank(row.value.planType) < Rank(target)
    ensures var r := SettleSubscription(row, target, billing, paidAt, a);
            && r.planType == target && r.billingInterval == Some(billing)
            && r.planExpiresAt.Some? && Lasts(billing, paidAt, r.planExpiresAt.value)
            && r.currentPeriodStartsAt == Some(paidAt) && r.currentPeriodEndsAt == Some(AddMonth(paidAt))
            && r.pendingPlanType.None? && r.pendingBillingInterval.None?
            && r.pendingPlanStartsAt.None? && r.pendingPlanExpiresAt.None?
            && Full(r, a) && r.lastResetDate == paidAt
            && r.listingGraceEndsAt == (if row.Some? then row.value.listingGraceEndsAt else None)
            && paidAt < r.currentPeriodEndsAt.value <= r.planExpiresAt.value
  {
    AddYearSpan(paidAt);
    AddMonthSpan(paidAt);
  }

  /** A pending plan, once due, takes over where the plan it follows ended. */
  lemma {:induction false} DowngradeTakesOver(q: UserQuota, target: Plan, billing: Billing, paidAt: int, a: Allowances,
      now: int, saved: PlanConfiguration)
    requires QuotaInv(q) && PlanActive(Some(q), paidAt) && target != Free && billing != OneTime
    requires Rank(target) < Rank(q.planType)
    ensures var r := SettleSubscription(Some(q), target, billing, paidAt, a);
            && r.pendingPlanExpiresAt.Some?
            && var end := r.pendingPlanExpiresAt.value;
               && Lasts(billing, q.planExpiresAt.value, end)
               && (now < q.planExpiresAt.value ==> EnsureCurrentPeriod(Some(r), now, saved).planType == q.planType)
               && (q.planExpiresAt.value <= now < end ==>
                     var s := EnsureCurrentPeriod(Some(r), now, saved);
                     s.planType == target && s.planExpiresAt == Some(end) && s.billingInterval == Some(billing))
               && (end <= now ==> EnsureCurrentPeriod(Some(r), now, saved).planType == Free)
  {
    AddMonthSpan(q.planExpiresAt.value);
    AddYearSpan(q.planExpiresAt.value);
  }
}
