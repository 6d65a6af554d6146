/** Every call of the quota, payment and plan-configuration services over the shared tables, and whole runs of them. */
module CommercialRuns {
  import opened Wrappers
  import opened Calendar
  import opened PricingCatalog
  import opened Subscription
  import opened Ledger
  import opened Boosts
  import opened Settlement
  import opened Capacity

  function EnsureRow(rows: Rows, u: UserId, now: int): Rows {
    rows.(quotas := rows.quotas[u := EnsureCurrentPeriod(QuotaRow(rows, u), now, rows.plans)])
  }

  /** `consumeSoonestExpiring`: the units left, or None when refused. */
  function Consume(rows: Rows, u: UserId, k: Consumable, now: int): (Rows, Option<int>) {
    var r := EnsureRow(rows, u, now);
    match ConsumeSoonestExpiring(Account(r.quotas[u], r.grants), u, k, now)
    case None => (r, None)
    case Some(done) => (r.(quotas := r.quotas[u := done.0.quota], grants := done.0.grants), Some(done.1))
  }

  /** `activatePlanBoost`: spends one included credit on an approved listing of the owner. */
  function PlanBoost(rows: Rows, u: UserId, p: PropertyId, now: int): (Rows, bool) {
    BoostFromPlan(EnsureRow(rows, u, now), u, p, now)
  }

  function BoostFromPlan(rows: Rows, u: UserId, p: PropertyId, now: int): (Rows, bool)
    requires u in rows.quotas
  {
    var q := rows.quotas[u];
    if !Boostable(rows, u, p) || q.boostCreditsLeft <= 0 then (rows, false)
    else
      var days := PlanAllowances(rows.plans, q.planType).boostDurationDays;
      (rows.(quotas := rows.quotas[u := q.(boostCreditsLeft := q.boostCreditsLeft - 1)],
             boosts := AddCampaign(rows.boosts, p, u, None, days, now)), true)
  }

  /** `updatePlan`: stores the new allowances and re-bases the quota of every owner on the plan. */
  function UpdatePlan(rows: Rows, plan: Plan, next: Allowances): Rows {
    var previous := PlanAllowances(rows.plans, plan);
    rows.(plans := rows.plans[plan := next],
          quotas := map u | u in rows.quotas ::
                      if rows.quotas[u].planType == plan then RebasedQuota(rows.quotas[u], previous, next)
                      else rows.quotas[u])
  }

  /** `updateProduct`: the amounts that the kind of product uses, where they are given. */
  function UpdateProduct(rows: Rows, paymentType: PaymentType, o: ProductOverride): (Rows, bool) {
    var kind := DefaultProduct(paymentType).kind;
    if SettlesAs(paymentType) != Some(paymentType) then (rows, false)
    else if kind == ENTITLEMENT && (Or(o.quantity, 0) == 0 || Or(o.validityDays, 0) == 0) then (rows, false)
    else if kind == BOOST && Or(o.durationDays, 0) == 0 then (rows, false)
    else
      var stored := ProductOverride(o.priceEgp, o.enabled,
                                    if kind == ENTITLEMENT then o.quantity else None,
                                    if kind == ENTITLEMENT then o.validityDays else None,
                                    if kind == BOOST then o.durationDays else None);
      (rows.(products := rows.products[paymentType := stored]), true)
  }

  /** An edited product still gives something: its amounts are those asked for, none of them zero. */
  lemma {:induction false} EditedProductIsSellable(rows: Rows, paymentType: PaymentType, o: ProductOverride)
    ensures UpdateProduct(rows, paymentType, o).1 ==>
              var p := ResolvedProduct(UpdateProduct(rows, paymentType, o).0.products, paymentType);
              && p.kind == DefaultProduct(paymentType).kind && p.priceEgp == o.priceEgp
              && (p.kind == ENTITLEMENT ==> o.quantity == Some(p.quantity) && o.validityDays == Some(p.validityDays))
              && (p.kind == ENTITLEMENT ==> p.quantity > 0 && p.validityDays > 0)
              && (p.kind == BOOST ==> o.durationDays == Some(p.durationDays) && p.durationDays > 0)
  {
  }

  /** An edit is accepted for a product of the present catalogue whose amounts are named; a disabled one is not sold. */
  lemma {:induction false} ProductEditAccepted(rows: Rows, paymentType: PaymentType, o: ProductOverride)
    ensures var (r, accepted) := UpdateProduct(rows, paymentType, o);
            var kind := DefaultProduct(paymentType).kind;
            && (accepted <==>
                  && SettlesAs(paymentType) == Some(paymentType)
                  && (kind == ENTITLEMENT ==> o.quantity.Some? && o.quantity.value > 0
                                              && o.validityDays.Some? && o.validityDays.value > 0)
                  && (kind == BOOST ==> o.durationDays.Some? && o.durationDays.value > 0))
            && (!accepted ==> r == rows)
            && (accepted ==>
                  && r.(products := rows.products) == rows
                  && (CheckoutSnapshot(r, paymentType).Some? <==> o.enabled)
                  && forall other | other != paymentType ::
                       ResolvedProduct(r.products, other) == ResolvedProduct(rows.products, other)
                       && Enabled(r.products, other) == Enabled(rows.products, other))
  {
  }

  /** An edited plan re-bases the quotas of its owners and no other row of any table. */
  lemma {:induction false} PlanEditReaches(rows: Rows, plan: Plan, next: Allowances)
    ensures var r := UpdatePlan(rows, plan, next);
            && PlanAllowances(r.plans, plan) == next
            && (forall other | other != plan :: PlanAllowances(r.plans, other) == PlanAllowances(rows.plans, other))
            && r == rows.(plans := r.plans, quotas := r.quotas) && r.quotas.Keys == rows.quotas.Keys
            && forall u | u in rows.quotas ::
                 if rows.quotas[u].planType == plan
                 then r.quotas[u] == RebasedQuota(rows.quotas[u], PlanAllowances(rows.plans, plan), next)
                 else r.quotas[u] == rows.quotas[u]
  {
  }

  /** One owner's turn of the hourly capacity job, with the listings it archives. */
  datatype OwnerTurn = OwnerTurn(userId: UserId, chosen: set<PropertyId>)

  function JobRows(rows: Rows, turns: seq<OwnerTurn>, now: int): Rows {
    if turns == [] then rows
    else TurnRows(JobRows(rows, turns[..|turns| - 1], now), turns[|turns| - 1].userId, turns[|turns| - 1].chosen, now)
  }

  /** `checkout`: an offered product, a role it is for, and for a boost an approved listing of the buyer. */
  function Checkout(rows: Rows, order: OrderId, u: UserId, roleAllowed: bool, paymentType: PaymentType,
                    target: Option<PropertyId>): (Rows, bool)
  {
    var snapshot := CheckoutSnapshot(rows, paymentType);
    if SettlesAs(paymentType) != Some(paymentType) || snapshot.None? || !roleAllowed then (rows, false)
    else if snapshot.value.product.kind == BOOST && (target.None? || !Boostable(rows, u, target.value)) then
      (rows, false)
    else if order in rows.transactions then (rows, false)
    else
      var amount := snapshot.value.product.priceEgp as real;
      var t := Transaction(u, amount, "EGP", paymentType, target, snapshot, Pending, None, None);
      (rows.(transactions := rows.transactions[order := t]), true)
  }

  predicate Boostable(rows: Rows, u: UserId, p: PropertyId) {
    p in rows.boosts.listings && rows.boosts.listings[p].ownerId == u && rows.boosts.listings[p].status == APPROVED
  }

  /**
   What may be bought: a product of the present catalogue that is not disabled, by a role it is for, a boost
   only for an approved listing of the buyer. One pending order is written, and nothing else.
   */
  lemma {:induction false} CheckoutAccepted(rows: Rows, order: OrderId, u: UserId, roleAllowed: bool,
      paymentType: PaymentType, target: Option<PropertyId>)
    requires order !in rows.transactions
    ensures var (r, bought) := Checkout(rows, order, u, roleAllowed, paymentType, target);
            && (bought <==>
                  && roleAllowed && SettlesAs(paymentType) == Some(paymentType)
                  && !(paymentType in rows.products && !rows.products[paymentType].enabled)
                  && (DefaultProduct(paymentType).kind == BOOST ==>
                        && target.Some? && target.value in rows.boosts.listings
                        && rows.boosts.listings[target.value].ownerId == u
                        && rows.boosts.listings[target.value].status == APPROVED))
            && (!bought ==> r == rows)
            && (bought ==>
                  && r == rows.(transactions := rows.transactions[order := r.transactions[order]])
                  && var t := r.transactions[order];
                     && t.userId == u && t.paymentType == paymentType && t.targetPropertyId == target
                     && t.status == Pending && t.currency == "EGP" && t.paidAt.None?
                     && t.amount == ResolvedProduct(rows.products, paymentType).priceEgp as real)
  {
  }

  datatype Call =
    | Buy(order: OrderId, userId: UserId, roleAllowed: bool, paymentType: PaymentType, target: Option<PropertyId>,
        at: int)
    | Webhook(result: WebhookResult, at: int)
    | HourlyPass(at: int, second: int, answers: seq<Answer>)
    | Ensure(userId: UserId, at: int)
    | Spend(userId: UserId, kind: Consumable, at: int)
    | Boost(userId: UserId, propertyId: PropertyId, at: int)
    | EditPlan(plan: Plan, next: Allowances, at: int)
    | EditProduct(paymentType: PaymentType, amounts: ProductOverride, at: int)
    | CapacityJob(turns: seq<OwnerTurn>, at: int)
    | CheckCapacity(userId: UserId, at: int)
    | NewListing(userId: UserId, propertyId: PropertyId, regionOpen: bool, at: int)
    | Unlist(propertyId: PropertyId, status: PropertyStatus, at: int)
    | Relabel(propertyId: PropertyId, status: PropertyStatus, at: int)

  function Do(rows: Rows, c: Call): Rows {
    match c
    case Buy(order, u, roleAllowed, paymentType, target, _) =>
      Checkout(rows, order, u, roleAllowed, paymentType, target).0
    case Webhook(w, at) => HandleWebhook(rows, w, at).0
    case HourlyPass(at, second, answers) => SettlePending(rows.(boosts := Reconcile(rows.boosts, at, second)), answers)
    case Ensure(u, at) => EnsureRow(rows, u, at)
    case Spend(u, k, at) => Consume(rows, u, k, at).0
    case Boost(u, p, at) => PlanBoost(rows, u, p, at).0
    case EditPlan(plan, next, _) => UpdatePlan(rows, plan, next)
    case EditProduct(paymentType, amounts, _) => UpdateProduct(rows, paymentType, amounts).0
    case CapacityJob(turns, at) => JobRows(rows, turns, at)
    case NewListing(u, p, regionOpen, at) => CreateListing(rows, u, p, regionOpen, at).0
    case Unlist(p, status, _) =>
      if p in rows.boosts.listings then rows.(boosts := DropBoost(rows.boosts, p, status)) else rows
    case CheckCapacity(u, at) => CapacityRow(rows, u, at)
    case Relabel(p, status, _) =>
      if p in rows.boosts.listings then rows.(boosts := SetStatus(rows.boosts, p, status)) else rows
  }

  predicate AnswersTimed(answers: seq<Answer>, now: int)
    decreases |answers|
  {
    answers != [] ==> now <= answers[0].at && AnswersTimed(answers[1..], answers[0].at)
  }

  function AnswersEnd(answers: seq<Answer>, now: int): int {
    if answers == [] then now else answers[|answers| - 1].at
  }

  function CallEnd(c: Call): int {
    if c.HourlyPass? then AnswersEnd(c.answers, c.second) else c.at
  }

  /** The clock never goes back, and an edited plan has a boost duration of at least one day. */
  predicate CallTimed(c: Call, now: int) {
    && now <= c.at
    && (c.HourlyPass? ==> c.at <= c.second && AnswersTimed(c.answers, c.second))
    && (c.EditPlan? ==> c.next.boostDurationDays >= 1)
  }

  predicate RunTimed(cs: seq<Call>, now: int)
    decreases |cs|
  {
    cs != [] ==> CallTimed(cs[0], now) && RunTimed(cs[1..], CallEnd(cs[0]))
  }

  function Run(rows: Rows, cs: seq<Call>): Rows
    decreases |cs|
  {
    if cs == [] then rows else Run(Do(rows, cs[0]), cs[1..])
  }

  function RunEnd(cs: seq<Call>, now: int): int
    decreases |cs|
  {
    if cs == [] then now else RunEnd(cs[1..], CallEnd(cs[0]))
  }

  predicate TablesInv(rows: Rows, now: int) {
    && (forall u | u in rows.quotas :: QuotaInv(rows.quotas[u]))
    && GrantsInv(rows.grants)
    && (forall i | 0 <= i < |rows.grants| :: rows.grants[i].startsAt <= now)
    && BoostInv(rows.boosts, now)
    && (forall p | p in rows.plans :: rows.plans[p].boostDurationDays >= 1)
  }

  /** What holds of the shared tables between any two calls. */
  predicate CommercialInv(rows: Rows, now: int) {
    TablesInv(rows, now) && PaidOnce(rows)
  }

  lemma {:induction false} ClockAdvances(rows: Rows, now: int, later: int)
    requires CommercialInv(rows, now) && now <= later
    ensures CommercialInv(rows, later)
  {
    TimePasses(rows.boosts, now, later);
  }

  lemma {:induction false} EnsureRowKeepsInv(rows: Rows, u: UserId, now: int)
    requires CommercialInv(rows, now)
    ensures CommercialInv(EnsureRow(rows, u, now), now)
  {
    EnsureKeepsInv(QuotaRow(rows, u), now, rows.plans);
    PaidOnceStable(rows, EnsureRow(rows, u, now));
  }

  /** Writing a sound quota row, and listings that keep their boosts, leaves the tables consistent. */
  lemma {:induction false} QuotaWriteKeepsInv(rows: Rows, u: UserId, q: UserQuota, now: int)
    requires CommercialInv(rows, now) && QuotaInv(q)
    ensures CommercialInv(rows.(quotas := rows.quotas[u := q]), now)
  {
    PaidOnceStable(rows, rows.(quotas := rows.quotas[u := q]));
  }

  lemma {:induction false} GraceKeepsInv(rows: Rows, u: UserId, now: int)
    requires CommercialInv(rows, now)
    ensures QuotaInv(CapacityQuota(rows, u, now)) && QuotaInv(TurnQuota(rows, u, now))
  {
    EnsureKeepsInv(QuotaRow(rows, u), now, rows.plans);
  }

  lemma {:induction false} CapacityKeepsInv(rows: Rows, u: UserId, now: int)
    requires CommercialInv(rows, now)
    ensures CommercialInv(CapacityRow(rows, u, now), now)
  {
    GraceKeepsInv(rows, u, now);
    QuotaWriteKeepsInv(rows, u, CapacityQuota(rows, u, now), now);
  }

  lemma {:induction false} NewListingKeepsInv(rows: Rows, u: UserId, p: PropertyId, regionOpen: bool, now: int)
    requires CommercialInv(rows, now)
    ensures CommercialInv(CreateListing(rows, u, p, regionOpen, now).0, now)
  {
    var r := CapacityRow(rows, u, now);
    CapacityKeepsInv(rows, u, now);
    AddListingKeepsInv(r.boosts, p, u, now);
    PaidOnceStable(r, CreateListing(rows, u, p, regionOpen, now).0);
  }

  lemma {:induction false} ArchivingKeepsBoosts(boosts: BoostRows, chosen: set<PropertyId>, now: int)
    requires BoostInv(boosts, now)
    ensures BoostInv(boosts.(listings := Archived(boosts.listings, chosen)), now)
  {
  }

  /** The hourly capacity job keeps the tables consistent too, whichever of equally old listings it archives. */
  lemma {:induction false} EnforcementKeepsInv(rows: Rows, u: UserId, chosen: set<PropertyId>, now: int)
    requires CommercialInv(rows, now)
    ensures CommercialInv(TurnRows(rows, u, chosen, now), now)
  {
    GraceKeepsInv(rows, u, now);
    var m := rows.(quotas := rows.quotas[u := TurnQuota(rows, u, now)]);
    QuotaWriteKeepsInv(rows, u, TurnQuota(rows, u, now), now);
    ArchivingKeepsBoosts(m.boosts, chosen, now);
    PaidOnceStable(m, TurnRows(rows, u, chosen, now));
  }

  lemma {:induction false} JobKeepsInv(rows: Rows, turns: seq<OwnerTurn>, now: int)
    requires CommercialInv(rows, now)
    ensures CommercialInv(JobRows(rows, turns, now), now)
    decreases |turns|
  {
    if turns != [] {
      var n := |turns| - 1;
      JobKeepsInv(rows, turns[..n], now);
      EnforcementKeepsInv(JobRows(rows, turns[..n], now), turns[n].userId, turns[n].chosen, now);
    }
  }

  /**
   How far the job has come, with the turns it has taken so far: the tables are consistent, they are what
   these turns make of them, and whoever is not waiting any more is within the limit or has a deadline ahead.
   */
  ghost predicate JobState(start: Rows, rows: Rows, waiting: set<UserId>, turns: seq<OwnerTurn>, now: int) {
    CommercialInv(rows, now) && waiting <= rows.quotas.Keys && JobProgress(start, rows, waiting, now)
      && rows == JobRows(start, turns, now)
  }

  lemma {:induction false} JobBegins(start: Rows, now: int)
    requires CommercialInv(start, now)
    ensures JobState(start, start, start.quotas.Keys, [], now)
  {
    JobStarts(start, now);
  }

  lemma {:induction false} JobTakesTurn(start: Rows, rows: Rows, waiting: set<UserId>, turns: seq<OwnerTurn>, u: UserId,
      chosen: set<PropertyId>, now: int)
    requires JobState(start, rows, waiting, turns, now) && u in waiting && TurnChoice(rows, u, chosen, now)
    ensures JobState(start, TurnRows(rows, u, chosen, now), waiting - {u}, turns + [OwnerTurn(u, chosen)], now)
  {
    EnforcementKeepsInv(rows, u, chosen, now);
    JobAdvances(start, rows, waiting, u, chosen, now);
    var later := turns + [OwnerTurn(u, chosen)];
    assert later[..|later| - 1] == turns;
  }

  lemma {:induction false} EnsuredAccount(rows: Rows, u: UserId, now: int)
    requires CommercialInv(rows, now)
    ensures var r := EnsureRow(rows, u, now); AccountInv(Account(r.quotas[u], r.grants))
  {
    EnsureKeepsInv(QuotaRow(rows, u), now, rows.plans);
  }

  /** The quotas of a plan edit that has reached some of the owners. */
  function RebasedSome(quotas: map<UserId, UserQuota>, done: set<UserId>, previous: Allowances,
      next: Allowances): map<UserId, UserQuota>
  {
    map u | u in quotas :: if u in done then RebasedQuota(quotas[u], previous, next) else quotas[u]
  }

  lemma {:induction false} RebasedAll(rows: Rows, plan: Plan, next: Allowances)
    ensures var all := set u | u in rows.quotas && rows.quotas[u].planType == plan;
            RebasedSome(rows.quotas, all, PlanAllowances(rows.plans, plan), next) == UpdatePlan(rows, plan, next).quotas
  {
  }

  lemma {:induction false} RebasedOneMore(quotas: map<UserId, UserQuota>, done: set<UserId>, u: UserId,
      previous: Allowances, next: Allowances)
    requires u in quotas && u !in done
    ensures var some := RebasedSome(quotas, done, previous, next);
            some[u] == quotas[u] && RebasedSome(quotas, done + {u}, previous, next)
              == some[u := RebasedQuota(quotas[u], previous, next)]
  {
  }

  lemma {:induction false} ConsumeKeepsInv(rows: Rows, u: UserId, k: Consumable, now: int)
    requires CommercialInv(rows, now)
    ensures CommercialInv(Consume(rows, u, k, now).0, now)
  {
    EnsureRowKeepsInv(rows, u, now);
    var r := EnsureRow(rows, u, now);
    var a := Account(r.quotas[u], r.grants);
    var done := ConsumeSoonestExpiring(a, u, k, now);
    if done.Some? {
      var b := done.value.0;
      assert AccountInv(b) by { ConsumeConserves(a, u, k, now); }
      ConsumeKeepsRows(a, u, k, now);
      SpentAccountKeepsInv(r, u, b, now);
    }
  }

  lemma {:induction false} SpentAccountKeepsInv(rows: Rows, u: UserId, b: Account, now: int)
    requires CommercialInv(rows, now) && AccountInv(b)
    requires |b.grants| == |rows.grants|
    requires forall i | 0 <= i < |rows.grants| :: b.grants[i].(remaining := 0) == rows.grants[i].(remaining := 0)
    ensures CommercialInv(rows.(quotas := rows.quotas[u := b.quota], grants := b.grants), now)
  {
    var r := rows.(quotas := rows.quotas[u := b.quota], grants := b.grants);
    forall i | 0 <= i < |rows.grants|
      ensures r.grants[i].startsAt == rows.grants[i].startsAt
      ensures r.grants[i].paymentTransaction == rows.grants[i].paymentTransaction
    {
      assert b.grants[i].(remaining := 0) == rows.grants[i].(remaining := 0);
    }
    PaidOnceStable(rows, r);
  }

  lemma {:induction false} UnpaidCampaignKeepsInv(rows: Rows, u: UserId, p: PropertyId, days: int, now: int)
    requires CommercialInv(rows, now) && p in rows.boosts.listings && days >= 1
    ensures CommercialInv(rows.(boosts := AddCampaign(rows.boosts, p, u, None, days, now)), now)
  {
    var boosts := AddCampaign(rows.boosts, p, u, None, days, now);
    AddCampaignKeepsInv(rows.boosts, p, u, None, days, now);
    NewCampaignPaidOnce(rows, boosts, NewCampaign(rows.boosts.campaigns, p, u, None, days, now));
  }

  lemma {:induction false} CreditSpent(q: UserQuota)
    requires QuotaInv(q) && q.boostCreditsLeft > 0
    ensures QuotaInv(q.(boostCreditsLeft := q.boostCreditsLeft - 1))
  {
  }

  lemma {:induction false} CreditForCampaignKeepsInv(rows: Rows, u: UserId, p: PropertyId, now: int)
    requires CommercialInv(rows, now) && u in rows.quotas && rows.quotas[u].boostCreditsLeft > 0
             && p in rows.boosts.listings
    ensures var q := rows.quotas[u];
            CommercialInv(rows.(quotas := rows.quotas[u := q.(boostCreditsLeft := q.boostCreditsLeft - 1)],
                                boosts := AddCampaign(rows.boosts, p, u, None,
                                  PlanAllowances(rows.plans, q.planType).boostDurationDays, now)), now)
  {
    var q := rows.quotas[u];
    var days := PlanAllowances(rows.plans, q.planType).boostDurationDays;
    BoostDaysArePositive(rows, q.planType, now);
    CreditSpent(q);
    UnpaidCampaignKeepsInv(rows, u, p, days, now);
    QuotaWriteKeepsInv(rows.(boosts := AddCampaign(rows.boosts, p, u, None, days, now)), u,
      q.(boostCreditsLeft := q.boostCreditsLeft - 1), now);
  }

  lemma {:induction false} BoostFromPlanKeepsInv(rows: Rows, u: UserId, p: PropertyId, now: int)
    requires CommercialInv(rows, now) && u in rows.quotas
    ensures CommercialInv(BoostFromPlan(rows, u, p, now).0, now)
  {
    if BoostFromPlan(rows, u, p, now).1 {
      CreditForCampaignKeepsInv(rows, u, p, now);
    }
  }

  lemma {:induction false} PlanBoostKeepsInv(rows: Rows, u: UserId, p: PropertyId, now: int)
    requires CommercialInv(rows, now)
    ensures CommercialInv(PlanBoost(rows, u, p, now).0, now)
  {
    EnsureRowKeepsInv(rows, u, now);
    BoostFromPlanKeepsInv(EnsureRow(rows, u, now), u, p, now);
  }

  lemma {:induction false} BoostDaysArePositive(rows: Rows, plan: Plan, now: int)
    requires CommercialInv(rows, now)
    ensures PlanAllowances(rows.plans, plan).boostDurationDays >= 1
  {
  }

  lemma {:induction false} UpdatePlanKeepsInv(rows: Rows, plan: Plan, next: Allowances, now: int)
    requires CommercialInv(rows, now) && next.boostDurationDays >= 1
    ensures CommercialInv(UpdatePlan(rows, plan, next), now)
  {
    var r := UpdatePlan(rows, plan, next);
    forall u | u in r.quotas
      ensures QuotaInv(r.quotas[u])
    {
      RebaseKeepsInv(rows.quotas[u], PlanAllowances(rows.plans, plan), next);
    }
    PaidOnceStable(rows, r);
  }

  lemma {:induction false} SettleKeepsInv(rows: Rows, order: OrderId, u: UserId, paymentType: PaymentType, id: string,
      report: Report, now: int)
    requires CommercialInv(rows, now)
    ensures CommercialInv(Settle(rows, order, u, paymentType, id, report, now).0, now)
  {
    var (r, s) := Settle(rows, order, u, paymentType, id, report, now);
    SettleKeepsPaidOnce(rows, order, u, paymentType, id, report, now);
    ValueMeansClaim(rows, order, u, paymentType, id, report, now);
    if s.Paid? && s.effect != NoEffect {
      var t := rows.transactions[order];
      var claimed := rows.(transactions := r.transactions);
      var snapshot := ProductFor(rows, t, SettlesAs(paymentType).value);
      assert Grants(claimed, order, u, paymentType, t.targetPropertyId, snapshot, now) == Some((r, s.effect));
      GrantsKeepsTables(claimed, order, u, paymentType, t.targetPropertyId, snapshot, now);
    }
  }

  lemma {:induction false} GrantsKeepsTables(rows: Rows, order: OrderId, u: UserId, paymentType: PaymentType,
      target: Option<PropertyId>, s: Snapshot, now: int)
    requires TablesInv(rows, now)
    requires Grants(rows, order, u, paymentType, target, s, now).Some?
    ensures TablesInv(Grants(rows, order, u, paymentType, target, s, now).value.0, now)
  {
    var p := s.product;
    match p.kind {
      case SUBSCRIPTION =>
        var a := if s.planAllowances.Some? then s.planAllowances.value
          else PlanAllowances(rows.plans, p.planType.value);
        Subscription.SettleKeepsInv(QuotaRow(rows, u), p.planType.value, p.billing, now, a);
      case ENTITLEMENT =>
      case BOOST =>
        AddCampaignKeepsInv(rows.boosts, target.value, u, Some(order), p.durationDays, now);
    }
  }

  lemma {:induction false} WebhookKeepsInv(rows: Rows, w: WebhookResult, now: int)
    requires CommercialInv(rows, now)
    ensures CommercialInv(HandleWebhook(rows, w, now).0, now)
  {
    if w.providerOrderId.Some? {
      var order := w.providerOrderId.value;
      forall u, paymentType
        ensures CommercialInv(Settle(rows, order, u, paymentType, w.transactionId, w.report, now).0, now)
      {
        SettleKeepsInv(rows, order, u, paymentType, w.transactionId, w.report, now);
      }
      if order in rows.transactions && rows.transactions[order].status == Pending {
        PaidOnceStable(rows, rows.(transactions := rows.transactions[order :=
          rows.transactions[order].(status := Failed, providerTransactionId := Some(w.transactionId))]));
      }
    }
  }

  lemma {:induction false} AnswersAscend(answers: seq<Answer>, now: int)
    requires AnswersTimed(answers, now)
    ensures now <= AnswersEnd(answers, now)
    decreases |answers|
  {
    if answers != [] {
      AnswersAscend(answers[1..], answers[0].at);
    }
  }

  lemma {:induction false} SettlePendingKeepsInv(rows: Rows, answers: seq<Answer>, now: int)
    requires CommercialInv(rows, now) && AnswersTimed(answers, now)
    ensures CommercialInv(SettlePending(rows, answers), AnswersEnd(answers, now))
    decreases |answers|
  {
    if answers != [] {
      var a := answers[0];
      ClockAdvances(rows, now, a.at);
      if a.order in rows.transactions && a.transactionId.Some? {
        var t := rows.transactions[a.order];
        SettleKeepsInv(rows, a.order, t.userId, t.paymentType, a.transactionId.value, NO_REPORT, a.at);
      }
      var (r, s) := SettleAnswer(rows, a);
      if s.Refused? {
        AnswersAscend(answers[1..], a.at);
        ClockAdvances(r, a.at, AnswersEnd(answers, now));
      } else {
        SettlePendingKeepsInv(r, answers[1..], a.at);
      }
    }
  }

  lemma {:induction false} HourlyPassKeepsInv(rows: Rows, c: Call)
    requires c.HourlyPass? && CommercialInv(rows, c.at) && CallTimed(c, c.at)
    ensures CommercialInv(Do(rows, c), CallEnd(c))
  {
    var r := rows.(boosts := Reconcile(rows.boosts, c.at, c.second));
    ReconcileKeepsInv(rows.boosts, c.at, c.second);
    PaidOnceStable(rows, r);
    SettlePendingKeepsInv(r, c.answers, c.second);
  }

  predicate MovesListings(c: Call) {
    c.Unlist? || c.Relabel? || c.NewListing? || c.CheckCapacity? || c.CapacityJob?
  }

  lemma {:induction false} ListingWriteKeepsInv(rows: Rows, boosts: BoostRows, now: int)
    requires CommercialInv(rows, now) && BoostInv(boosts, now) && boosts.campaigns == rows.boosts.campaigns
    ensures CommercialInv(rows.(boosts := boosts), now)
  {
    PaidOnceStable(rows, rows.(boosts := boosts));
  }

  lemma {:induction false} ListingCallKeepsInv(rows: Rows, c: Call)
    requires CommercialInv(rows, c.at) && MovesListings(c)
    ensures CommercialInv(Do(rows, c), c.at)
  {
    match c {
      case Unlist(p, status, at) =>
        if p in rows.boosts.listings {
          DropBoostKeepsInv(rows.boosts, p, status, at);
          ListingWriteKeepsInv(rows, DropBoost(rows.boosts, p, status), at);
        }
      case Relabel(p, status, at) =>
        if p in rows.boosts.listings {
          SetStatusKeepsInv(rows.boosts, p, status, at);
          ListingWriteKeepsInv(rows, SetStatus(rows.boosts, p, status), at);
        }
      case CheckCapacity(u, at) => CapacityKeepsInv(rows, u, at);
      case CapacityJob(turns, at) => JobKeepsInv(rows, turns, at);
      case NewListing(u, p, regionOpen, at) => NewListingKeepsInv(rows, u, p, regionOpen, at);
    }
  }

  /** A call that leaves the tables of the invariant alone but for an open transaction or the products. */
  lemma {:induction false} BookkeepingKeepsInv(rows: Rows, c: Call)
    requires CommercialInv(rows, c.at) && (c.Buy? || c.EditProduct?)
    ensures CommercialInv(Do(rows, c), c.at)
  {
    PaidOnceStable(rows, Do(rows, c));
  }

  lemma {:induction false} CallKeepsInv(rows: Rows, c: Call, now: int)
    requires CommercialInv(rows, now) && CallTimed(c, now)
    ensures CommercialInv(Do(rows, c), CallEnd(c))
  {
    ClockAdvances(rows, now, c.at);
    match c
    case Webhook(w, at) => WebhookKeepsInv(rows, w, at);
    case HourlyPass(_, _, _) => HourlyPassKeepsInv(rows, c);
    case Ensure(u, at) => EnsureRowKeepsInv(rows, u, at);
    case Spend(u, k, at) => ConsumeKeepsInv(rows, u, k, at);
    case Boost(u, p, at) => PlanBoostKeepsInv(rows, u, p, at);
    case EditPlan(plan, next, at) => UpdatePlanKeepsInv(rows, plan, next, at);
    case _ => if MovesListings(c) { ListingCallKeepsInv(rows, c); } else { BookkeepingKeepsInv(rows, c); }
  }

  /** Whatever the services are asked to do, in whatever order, the shared tables stay consistent. */
  lemma {:induction false} RunsKeepInv(rows: Rows, cs: seq<Call>, now: int)
    requires CommercialInv(rows, now) && RunTimed(cs, now)
    ensures CommercialInv(Run(rows, cs), RunEnd(cs, now))
    decreases |cs|
  {
    if cs != [] {
      CallKeepsInv(rows, cs[0], now);
      RunsKeepInv(Do(rows, cs[0]), cs[1..], CallEnd(cs[0]));
    }
  }

  lemma {:induction false} EmptyTablesSatisfyInv(listings: map<PropertyId, Listing>, now: int)
    requires forall p | p in listings :: !listings[p].isBoosted
    ensures CommercialInv(Rows(map[], [], BoostRows([], listings), map[], map[], map[]), now)
  {
  }

  // Exactly-once settlement over runs.

  /** The orders a call settles with success, in turn. */
  function PaidInAnswers(rows: Rows, answers: seq<Answer>): seq<OrderId>
    decreases |answers|
  {
    if answers == [] then []
    else
      var (r, s) := SettleAnswer(rows, answers[0]);
      if s.Refused? then [] else (if s.Paid? then [answers[0].order] else []) + PaidInAnswers(r, answers[1..])
  }

  function PaidIn(rows: Rows, c: Call): seq<OrderId> {
    match c
    case Webhook(w, at) => if HandleWebhook(rows, w, at).1.Paid? then [w.providerOrderId.value] else []
    case HourlyPass(at, second, answers) => PaidInAnswers(rows.(boosts := Reconcile(rows.boosts, at, second)), answers)
    case _ => []
  }

  function PaidLog(rows: Rows, cs: seq<Call>): seq<OrderId>
    decreases |cs|
  {
    if cs == [] then [] else PaidIn(rows, cs[0]) + PaidLog(Do(rows, cs[0]), cs[1..])
  }

  predicate Open(rows: Rows, order: OrderId) {
    order !in rows.transactions || rows.transactions[order].status == Pending
  }

  predicate NoRepeats(s: seq<OrderId>) {
    forall i, j | 0 <= i < j < |s| :: s[i] != s[j]
  }

  lemma {:induction false} NoRepeatsAcross(a: seq<OrderId>, b: seq<OrderId>)
    requires NoRepeats(a) && NoRepeats(b)
    requires forall o | o in a :: o !in b
    ensures NoRepeats(a + b)
  {
    forall i, j | 0 <= i < j < |a + b|
      ensures (a + b)[i] != (a + b)[j]
    {
      if i < |a| <= j {
        assert a[i] in a && b[j - |a|] in b;
      }
    }
  }

  lemma {:induction false} AnswersSettleOnce(rows: Rows, answers: seq<Answer>)
    ensures var log, r := PaidInAnswers(rows, answers), SettlePending(rows, answers);
            && NoRepeats(log)
            && (forall o | o in log :: Open(rows, o) && Status(r, o) == Some(Success))
            && (forall o | !Open(rows, o) :: o in r.transactions && r.transactions[o] == rows.transactions[o])
    decreases |answers|
  {
    if answers != [] {
      var a := answers[0];
      var (m, s) := SettleAnswer(rows, a);
      var first, later := if s.Paid? then [a.order] else [], PaidInAnswers(m, answers[1..]);
      AnswerSettlesOnce(rows, a);
      if s.Refused? {
        return;
      }
      AnswersSettleOnce(m, answers[1..]);
      assert PaidInAnswers(rows, answers) == first + later;
      assert forall o | o in first :: !Open(m, o);
      NoRepeatsAcross(first, later);
    }
  }

  lemma {:induction false} AnswerSettlesOnce(rows: Rows, a: Answer)
    ensures var (m, s) := SettleAnswer(rows, a);
            && (s.Paid? ==> Open(rows, a.order) && Status(m, a.order) == Some(Success))
            && (forall o | !Open(rows, o) :: o in m.transactions && m.transactions[o] == rows.transactions[o])
            && (forall o | Open(m, o) :: Open(rows, o))
  {
    if a.transactionId.Some? && a.order in rows.transactions {
      var t := rows.transactions[a.order];
      ValueMeansClaim(rows, a.order, t.userId, t.paymentType, a.transactionId.value, NO_REPORT, a.at);
      forall o | o in rows.transactions && rows.transactions[o].status != Pending
        ensures o in SettleAnswer(rows, a).0.transactions
                && SettleAnswer(rows, a).0.transactions[o] == rows.transactions[o]
      {
        SettledIsTerminal(rows, a.order, t.userId, t.paymentType, a.transactionId.value, NO_REPORT, a.at, o);
      }
    }
  }

  lemma {:induction false} CallSettlesOnce(rows: Rows, c: Call)
    ensures var log, r := PaidIn(rows, c), Do(rows, c);
            && NoRepeats(log)
            && (forall o | o in log :: Open(rows, o) && Status(r, o) == Some(Success))
            && (forall o | !Open(rows, o) :: o in r.transactions && r.transactions[o] == rows.transactions[o])
  {
    match c
    case HourlyPass(at, second, answers) =>
      AnswersSettleOnce(rows.(boosts := Reconcile(rows.boosts, at, second)), answers);
    case Webhook(w, at) => WebhookSettlesOnce(rows, w, at);
    case _ => OtherCallsSettleNone(rows, c);
  }

  lemma {:induction false} WebhookSettlesOnce(rows: Rows, w: WebhookResult, at: int)
    ensures var (r, s) := HandleWebhook(rows, w, at);
            && (s.Paid? ==> w.providerOrderId.Some? && Open(rows, w.providerOrderId.value)
                            && Status(r, w.providerOrderId.value) == Some(Success))
            && (forall o | !Open(rows, o) :: o in r.transactions && r.transactions[o] == rows.transactions[o])
  {
    if w.providerOrderId.Some? {
      forall u, paymentType
        ensures var (r, s) := Settle(rows, w.providerOrderId.value, u, paymentType, w.transactionId, w.report, at);
                && (s.Paid? ==>
                      Open(rows, w.providerOrderId.value) && Status(r, w.providerOrderId.value) == Some(Success))
                && (forall o | !Open(rows, o) :: o in r.transactions && r.transactions[o] == rows.transactions[o])
      {
        ValueMeansClaim(rows, w.providerOrderId.value, u, paymentType, w.transactionId, w.report, at);
        forall o | !Open(rows, o)
          ensures var r := Settle(rows, w.providerOrderId.value, u, paymentType, w.transactionId, w.report, at).0;
                  o in r.transactions && r.transactions[o] == rows.transactions[o]
        {
          SettledIsTerminal(rows, w.providerOrderId.value, u, paymentType, w.transactionId, w.report, at, o);
        }
      }
    }
  }

  lemma {:induction false} JobSettlesNone(rows: Rows, turns: seq<OwnerTurn>, now: int)
    ensures JobRows(rows, turns, now).transactions == rows.transactions
    decreases |turns|
  {
    if turns != [] {
      JobSettlesNone(rows, turns[..|turns| - 1], now);
    }
  }

  lemma {:induction false} OtherCallsSettleNone(rows: Rows, c: Call)
    requires !c.HourlyPass? && !c.Webhook?
    ensures forall o | !Open(rows, o) ::
            o in Do(rows, c).transactions && Do(rows, c).transactions[o] == rows.transactions[o]
  {
    if c.CapacityJob? {
      JobSettlesNone(rows, c.turns, c.at);
    }
  }

  /**
   Over any run of duplicate, late or contradictory callbacks and passes an order pays out at most once,
   only if it was open at the start, and stays successful; a settled order's row never changes again.
   */
  lemma {:induction false} RunsSettleOnce(rows: Rows, cs: seq<Call>)
    ensures var log, r := PaidLog(rows, cs), Run(rows, cs);
            && NoRepeats(log)
            && (forall o | o in log :: Open(rows, o) && Status(r, o) == Some(Success))
            && (forall o | !Open(rows, o) ::
               o !in log && o in r.transactions && r.transactions[o] == rows.transactions[o])
    decreases |cs|
  {
    if cs != [] {
      CallSettlesOnce(rows, cs[0]);
      RunsSettleOnce(Do(rows, cs[0]), cs[1..]);
      assert forall o | o in PaidIn(rows, cs[0]) :: !Open(Do(rows, cs[0]), o);
      NoRepeatsAcross(PaidIn(rows, cs[0]), PaidLog(Do(rows, cs[0]), cs[1..]));
    }
  }

  // What was agreed at checkout.

  /** The same purchase, whatever has become of its payment. */
  predicate SamePurchase(t: Transaction, later: Transaction) {
    later == t.(status := later.status, providerTransactionId := later.providerTransactionId, paidAt := later.paidAt)
  }

  predicate OrdersKept(rows: Rows, r: Rows) {
    forall o | o in rows.transactions :: o in r.transactions && SamePurchase(rows.transactions[o], r.transactions[o])
  }

  lemma {:induction false} SettleKeepsOrders(
    rows: Rows, order: OrderId, u: UserId, paymentType: PaymentType, id: string, report: Report, paidAt: int)
    ensures OrdersKept(rows, Settle(rows, order, u, paymentType, id, report, paidAt).0)
  {
    if order in rows.transactions {
      FulfilClaims(rows, order, u, paymentType, id, paidAt);
    }
  }

  lemma {:induction false} AnswersKeepOrders(rows: Rows, answers: seq<Answer>)
    ensures OrdersKept(rows, SettlePending(rows, answers))
    decreases |answers|
  {
    if answers != [] {
      var a := answers[0];
      var (r, s) := SettleAnswer(rows, a);
      if a.transactionId.Some? && a.order in rows.transactions {
        var t := rows.transactions[a.order];
        SettleKeepsOrders(rows, a.order, t.userId, t.paymentType, a.transactionId.value, NO_REPORT, a.at);
      }
      AnswersKeepOrders(r, answers[1..]);
    }
  }

  lemma {:induction false} CallKeepsOrders(rows: Rows, c: Call)
    ensures OrdersKept(rows, Do(rows, c))
  {
    match c
    case Webhook(w, at) =>
      if w.providerOrderId.Some? {
        forall u, paymentType
          ensures var settled := Settle(rows, w.providerOrderId.value, u, paymentType, w.transactionId, w.report, at);
                  OrdersKept(rows, settled.0)
        {
          SettleKeepsOrders(rows, w.providerOrderId.value, u, paymentType, w.transactionId, w.report, at);
        }
      }
    case HourlyPass(at, second, answers) =>
      AnswersKeepOrders(rows.(boosts := Reconcile(rows.boosts, at, second)), answers);
    case CapacityJob(turns, at) => JobSettlesNone(rows, turns, at);
    case _ =>
  }

  lemma {:induction false} RunsKeepOrders(rows: Rows, cs: seq<Call>)
    ensures OrdersKept(rows, Run(rows, cs))
    decreases |cs|
  {
    if cs != [] {
      CallKeepsOrders(rows, cs[0]);
      RunsKeepOrders(Do(rows, cs[0]), cs[1..]);
    }
  }

  /**
   What is bought is fixed at checkout: after any later run of calls the order asks for the price of that
   moment, and gives, when it settles, the product of that moment, whatever has been edited since.
   */
  lemma {:induction false} PurchaseIsFixedAtCheckout(
    rows: Rows, order: OrderId, u: UserId, paymentType: PaymentType, target: Option<PropertyId>, cs: seq<Call>)
    requires Checkout(rows, order, u, true, paymentType, target).1
    ensures var sold := ResolvedProduct(rows.products, paymentType);
            var r := Run(Checkout(rows, order, u, true, paymentType, target).0, cs);
            && order in r.transactions
            && var t := r.transactions[order];
               && t.userId == u && t.paymentType == paymentType && t.targetPropertyId == target
               && ExpectedCents(t.amount) == sold.priceEgp * 100
               && t.catalogSnapshot.Some? && Complete(t.catalogSnapshot.value)
               && ProductFor(r, t, paymentType).product == sold
  {
    var bought := Checkout(rows, order, u, true, paymentType, target).0;
    RunsKeepOrders(bought, cs);
    PriceInCents(ResolvedProduct(rows.products, paymentType).priceEgp);
  }

  lemma {:induction false} PriceInCents(n: nat)
    ensures ExpectedCents(n as real) == n * 100
  {
    assert n as real * 100.0 == (n * 100) as real;
  }

  // What the remaining calls leave.

  /** An included boost costs one credit exactly when it adds one campaign, and neither otherwise. */
  lemma {:induction false} PlanBoostCostsOneCredit(rows: Rows, u: UserId, p: PropertyId, now: int)
    ensures var r := EnsureRow(rows, u, now);
            var (s, boosted) := PlanBoost(rows, u, p, now);
            && (boosted <==> r.quotas[u].boostCreditsLeft > 0 && p in rows.boosts.listings
                             && rows.boosts.listings[p].ownerId == u && rows.boosts.listings[p].status == APPROVED)
            && (!boosted ==> s == r)
            && (boosted ==>
                  && s.quotas[u].boostCreditsLeft == r.quotas[u].boostCreditsLeft - 1
                  && |s.boosts.campaigns| == |rows.boosts.campaigns| + 1
                  && s.boosts.listings[p].isBoosted
                  && (var c := s.boosts.campaigns[|rows.boosts.campaigns|];
                      && c.propertyId == p && c.userId == u && c.paymentTransaction.None?
                      && c.durationDays == PlanAllowances(rows.plans, r.quotas[u].planType).boostDurationDays
                      && c.endsAt == AddDays(c.startsAt, c.durationDays))
                  && s.boosts.listings[p].boostedUntil == Some(s.boosts.campaigns[|rows.boosts.campaigns|].endsAt))
  {
  }

  /** A consume call answers the units left after it, and is refused exactly when there were none. */
  lemma {:induction false} ConsumeAnswers(rows: Rows, u: UserId, k: Consumable, now: int)
    requires CommercialInv(rows, now)
    ensures var r := EnsureRow(rows, u, now);
            var (s, left) := Consume(rows, u, k, now);
            var before := LiveTotal(Account(r.quotas[u], r.grants), u, k, now);
            && (left.Some? <==> before > 0)
            && (left.None? ==> s == r)
            && (left.Some? ==> left.value == before - 1 == LiveTotal(Account(s.quotas[u], s.grants), u, k, now))
            && (forall v | v in rows.quotas && v != u :: s.quotas[v] == rows.quotas[v])
  {
    EnsureRowKeepsInv(rows, u, now);
    var r := EnsureRow(rows, u, now);
    ConsumeConserves(Account(r.quotas[u], r.grants), u, k, now);
  }
}
