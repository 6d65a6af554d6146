/**
 The services as objects over one database: each method updates the tables step by step, as the code
 does, and is proved to do what the functions of the other modules say. `now` is the call's clock.
 */
module Services {
  import opened Wrappers
  import opened Calendar
  import opened PricingCatalog
  import opened Subscription
  import opened Ledger
  import opened Boosts
  import opened Settlement
  import opened Capacity
  import opened CommercialRuns

  class Database {
    var quotas: map<UserId, UserQuota>
    var grants: seq<Grant>
    var campaigns: seq<Campaign>
    var listings: map<PropertyId, Listing>
    var transactions: map<OrderId, Transaction>
    var plans: PlanConfiguration
    var products: map<PaymentType, ProductOverride>
    var ownerOffers: seq<UserId>

    function Tables(): Rows
      reads this
    {
      Rows(quotas, grants, BoostRows(campaigns, listings), transactions, plans, products)
    }

    /** A new campaign in the queue of its listing, and the listing's flag. */
    method CreateCampaign(p: PropertyId, u: UserId, payment: Option<OrderId>, days: int, now: int)
      requires p in listings
      modifies this`campaigns, this`listings
      ensures BoostRows(campaigns, listings)
              == AddCampaign(BoostRows(old(campaigns), old(listings)), p, u, payment, days, now)
    {
      var latest := LatestEnd(campaigns, p, now);
      var startsAt := if latest.Some? then latest.value else now;
      var endsAt := AddDays(startsAt, days);
      campaigns := campaigns + [Campaign(p, u, payment, days, startsAt, endsAt,
        if startsAt <= now then Active else Scheduled)];
      listings := listings[p := listings[p].(isBoosted := true, boostedUntil := Some(endsAt))];
    }
  }

  lemma {:induction false} CallKeeps(rows: Rows, c: Call, now: int)
    ensures CommercialInv(rows, now) && CallTimed(c, now) ==> CommercialInv(Do(rows, c), CallEnd(c))
  {
    if CommercialInv(rows, now) && CallTimed(c, now) {
      CallKeepsInv(rows, c, now);
    }
  }

  lemma {:induction false} CreateKeeps(rows: Rows, u: UserId, p: PropertyId, regionOpen: bool, now: int)
    ensures CommercialInv(rows, now) ==> CommercialInv(CreateListing(rows, u, p, regionOpen, now).0, now)
  {
    assert Do(rows, NewListing(u, p, regionOpen, now)) == CreateListing(rows, u, p, regionOpen, now).0;
    CallKeeps(rows, NewListing(u, p, regionOpen, now), now);
  }

  lemma {:induction false} PlanBoostKeeps(rows: Rows, u: UserId, p: PropertyId, now: int)
    ensures CommercialInv(rows, now) ==> CommercialInv(PlanBoost(rows, u, p, now).0, now)
  {
    assert Do(rows, Boost(u, p, now)) == PlanBoost(rows, u, p, now).0;
    CallKeeps(rows, Boost(u, p, now), now);
  }

  lemma {:induction false} RollsOver(row: Option<UserQuota>, now: int, saved: PlanConfiguration)
    ensures var r := EnsureCurrentPeriod(row, now, saved);
            && (row.None? ==> r.planType == Free && FreshMonth(r, now, saved))
            && (row.Some? && QuotaInv(row.value) ==>
                  if now < row.value.currentPeriodEndsAt.value then r == row.value else FreshMonth(r, now, saved))
  {
    if row.None? {
      FirstPeriodIsFree(now, saved);
    } else if QuotaInv(row.value) {
      EnsureResets(row.value, now, saved);
    }
  }

  class QuotaService {
    const db: Database

    constructor (db: Database)
      ensures this.db == db
    {
      this.db := db;
    }

    method EnsureCurrentPeriod(userId: UserId, now: int) returns (quota: UserQuota)
      modifies db`quotas
      ensures db.Tables() == EnsureRow(old(db.Tables()), userId, now)
      ensures userId in db.quotas && quota == db.quotas[userId]
      ensures userId !in old(db.quotas) ==> quota.planType == Free && FreshMonth(quota, now, db.plans)
      ensures userId in old(db.quotas) && QuotaInv(old(db.quotas)[userId]) ==>
                if now < old(db.quotas)[userId].currentPeriodEndsAt.value then quota == old(db.quotas)[userId]
                else FreshMonth(quota, now, db.plans)
    {
      RollsOver(QuotaRow(db.Tables(), userId), now, db.plans);
      if userId !in db.quotas {
        var allowances := PlanAllowances(db.plans, Free);
        quota := UserQuota(Free, None, None, None, None, None, None,
                           allowances.activeListings, allowances.offers, allowances.aiUses, allowances.boostCredits,
                           Some(now), Some(AddMonth(now)), None, now);
        db.quotas := db.quotas[userId := quota];
        return;
      }
      quota := db.quotas[userId];
      var planExpired := quota.planType != Free && (quota.planExpiresAt.None? || quota.planExpiresAt.value <= now);
      var activatePending := quota.PendingDue(now);
      var effectivePlan := if activatePending then quota.pendingPlanType.value else if planExpired then Free
        else quota.planType;
      var effectiveExpiry := if activatePending then quota.pendingPlanExpiresAt else if planExpired then None
        else quota.planExpiresAt;
      var periodExpired := quota.currentPeriodEndsAt.None? || quota.currentPeriodEndsAt.value <= now;
      if planExpired || periodExpired || quota.currentPeriodStartsAt.None? {
        var allowances := PlanAllowances(db.plans, effectivePlan);
        var periodEnd := AddMonth(now);
        if effectivePlan != Free && effectiveExpiry.Some? && effectiveExpiry.value < periodEnd {
          periodEnd := effectiveExpiry.value;
        }
        if activatePending {
          quota := quota.(billingInterval := quota.pendingBillingInterval, pendingPlanType := None,
                          pendingBillingInterval := None, pendingPlanStartsAt := None, pendingPlanExpiresAt := None);
        } else if planExpired {
          quota := quota.(billingInterval := None);
        }
        quota := quota.(planType := effectivePlan, planExpiresAt := effectiveExpiry,
                        maxActiveListings := allowances.activeListings, freeOffersLeft := allowances.offers,
                        optimizerUsesLeft := allowances.aiUses, boostCreditsLeft := allowances.boostCredits,
                        currentPeriodStartsAt := Some(now), currentPeriodEndsAt := Some(periodEnd),
                        lastResetDate := now);
        db.quotas := db.quotas[userId := quota];
      } else {
        assert db.quotas == db.quotas[userId := quota];
      }
    }

    /** The rows decide between a grant and the plan balance; the answer counts what is left of both. */
    method ConsumeSoonestExpiringWithClient(userId: UserId, k: Consumable, now: int) returns (remaining: Option<int>)
      requires userId in db.quotas
      modifies db`quotas, db`grants
      ensures var before := Account(old(db.quotas)[userId], old(db.grants));
              match Ledger.ConsumeSoonestExpiring(before, userId, k, now)
              case None => remaining == None && db.Tables() == old(db.Tables())
              case Some(done) =>
                && remaining == Some(done.1) && userId in db.quotas
                && db.Tables() == old(db.Tables()).(quotas := old(db.quotas)[userId := done.0.quota],
                   grants := done.0.grants)
    {
      var quota := db.quotas[userId];
      var grant := SoonestGrant(db.grants, userId, k, now);
      var planExpiresAt := if quota.currentPeriodEndsAt.Some? then quota.currentPeriodEndsAt.value else now;
      if grant.Some? && (Balance(quota, k) <= 0 || db.grants[grant.value].expiresAt < planExpiresAt) {
        db.grants := TakeFromGrant(db.grants, grant.value);
        assert db.quotas == db.quotas[userId := quota];
      } else if Balance(quota, k) > 0 {
        db.quotas := db.quotas[userId := WithBalance(quota, k, Balance(quota, k) - 1)];
      } else {
        return None;
      }
      remaining := Some(Balance(db.quotas[userId], k) + UsableUnits(db.grants, userId, k, now));
    }

    method ConsumeSoonestExpiring(userId: UserId, k: Consumable, now: int) returns (remaining: int)
      modifies db`quotas, db`grants
      ensures var (r, left) := Consume(old(db.Tables()), userId, k, now);
              db.Tables() == r && remaining == if left.Some? then left.value else -1
      ensures CommercialInv(old(db.Tables()), now) ==> CommercialInv(db.Tables(), now)
    {
      CallKeeps(db.Tables(), Spend(userId, k, now), now);
      remaining := ConsumeInPeriod(userId, k, now);
    }

    method ConsumeInPeriod(userId: UserId, k: Consumable, now: int) returns (remaining: int)
      modifies db`quotas, db`grants
      ensures var (r, left) := Consume(old(db.Tables()), userId, k, now);
              db.Tables() == r && remaining == if left.Some? then left.value else -1
    {
      var _ := EnsureCurrentPeriod(userId, now);
      var left := ConsumeSoonestExpiringWithClient(userId, k, now);
      remaining := if left.Some? then left.value else -1;
    }

    /**
     `withConsumedOffer`: the unit and the offer stand or fall together. An offer row appears exactly when
     a unit of the owner's was spent, and otherwise only the rollover of the period remains.
     */
    method WithConsumedOffer(userId: UserId, operationSucceeds: bool, now: int) returns (remaining: Option<int>)
      requires CommercialInv(db.Tables(), now)
      modifies db`quotas, db`grants, db`ownerOffers
      ensures var ensured := EnsureRow(old(db.Tables()), userId, now);
              var before := Account(ensured.quotas[userId], ensured.grants);
              && userId in db.quotas
              && (remaining.Some? <==> operationSucceeds && LiveTotal(before, userId, MatchedOffer, now) > 0)
              && (remaining.Some? ==>
                    var after := Account(db.quotas[userId], db.grants);
                    && db.ownerOffers == old(db.ownerOffers) + [userId]
                    && AllUnits(after) == AllUnits(before) - 1
                    && remaining.value == LiveTotal(after, userId, MatchedOffer, now)
                       == LiveTotal(before, userId, MatchedOffer, now) - 1)
              && (remaining.None? ==> db.ownerOffers == old(db.ownerOffers) && db.Tables() == ensured)
    {
      EnsuredAccount(db.Tables(), userId, now);
      var _ := EnsureCurrentPeriod(userId, now);
      var quotas, grants := db.quotas, db.grants;
      ConsumeConserves(Account(quotas[userId], grants), userId, MatchedOffer, now);
      remaining := ConsumeSoonestExpiringWithClient(userId, MatchedOffer, now);
      if remaining.None? {
        return;
      }
      if !operationSucceeds {
        db.quotas, db.grants := quotas, grants;
        return None;
      }
      db.ownerOffers := db.ownerOffers + [userId];
    }

    method ActivatePlanBoost(userId: UserId, propertyId: PropertyId, now: int) returns (activated: bool)
      modifies db`quotas, db`campaigns, db`listings
      ensures (db.Tables(), activated) == PlanBoost(old(db.Tables()), userId, propertyId, now)
      ensures CommercialInv(old(db.Tables()), now) ==> CommercialInv(db.Tables(), now)
    {
      PlanBoostKeeps(db.Tables(), userId, propertyId, now);
      var current := EnsureCurrentPeriod(userId, now);
      var days := PlanAllowances(db.plans, current.planType).boostDurationDays;
      if propertyId !in db.listings || db.listings[propertyId].ownerId != userId
        || db.listings[propertyId].status != APPROVED {
        return false;
      }
      if db.quotas[userId].boostCreditsLeft <= 0 {
        return false;
      }
      SpendCredit(userId, propertyId, days, now);
      activated := true;
    }

    method SpendCredit(userId: UserId, propertyId: PropertyId, days: int, now: int)
      requires userId in db.quotas && propertyId in db.listings
      modifies db`quotas, db`campaigns, db`listings
      ensures var q := old(db.quotas)[userId];
              db.quotas == old(db.quotas)[userId := q.(boostCreditsLeft := q.boostCreditsLeft - 1)]
      ensures BoostRows(db.campaigns, db.listings) ==
              AddCampaign(BoostRows(old(db.campaigns), old(db.listings)), propertyId, userId, None, days, now)
    {
      var quota := db.quotas[userId];
      db.quotas := db.quotas[userId := quota.(boostCreditsLeft := quota.boostCreditsLeft - 1)];
      db.CreateCampaign(propertyId, userId, None, days, now);
    }

    method GetListingCapacity(userId: UserId, now: int) returns (limit: int, count: int, graceEndsAt: Option<int>)
      modifies db`quotas
      ensures db.Tables() == CapacityRow(old(db.Tables()), userId, now)
      ensures userId in db.quotas && graceEndsAt == db.quotas[userId].listingGraceEndsAt
      ensures count == |ActiveListings(db.listings, userId)|
      ensures limit == ActiveLimit(db.quotas[userId], db.grants, userId, now)
    {
      var quota := EnsureCurrentPeriod(userId, now);
      limit := quota.maxActiveListings + UsableUnits(db.grants, userId, ActiveListing, now);
      count := |ActiveListings(db.listings, userId)|;
      UpdateGrace(userId, count, limit, now);
      graceEndsAt := db.quotas[userId].listingGraceEndsAt;
    }

    /** A grace starts with the first excess seen and ends with it. */
    method UpdateGrace(userId: UserId, count: int, limit: int, now: int)
      requires userId in db.quotas
      modifies db`quotas
      ensures db.quotas == old(db.quotas)[userId := WithGrace(old(db.quotas)[userId], count, limit, now)]
    {
      var quota := db.quotas[userId];
      if count > limit && quota.listingGraceEndsAt.None? {
        quota := quota.(listingGraceEndsAt := Some(AddDays(now, LISTING_CAPACITY_GRACE_DAYS)));
        db.quotas := db.quotas[userId := quota];
      } else if count <= limit && quota.listingGraceEndsAt.Some? {
        quota := quota.(listingGraceEndsAt := None);
        db.quotas := db.quotas[userId := quota];
      } else {
        assert db.quotas == db.quotas[userId := quota];
      }
    }

    /** The newest `take` listings of a set, newest first, as the ordered query returns them. */
    method FindNewest(all: set<PropertyId>, take: nat) returns (newest: set<PropertyId>)
      requires all <= db.listings.Keys && take <= |all|
      ensures NewestOf(db.listings, all, newest, take)
    {
      newest := {};
      while |newest| < take
        invariant newest <= all && |newest| <= take
        invariant forall c, r | c in newest && r in all && r !in newest ::
                  db.listings[r].createdAt <= db.listings[c].createdAt
        decreases take - |newest|
      {
        var rest := all - newest;
        assert |rest| == |all| - |newest| by { assert all == rest + newest; }
        var next :| next in rest;
        var unseen := rest - {next};
        while unseen != {}
          invariant next in rest && unseen <= rest
          invariant forall p | p in rest && p !in unseen :: db.listings[p].createdAt <= db.listings[next].createdAt
          decreases |unseen|
        {
          var p :| p in unseen;
          unseen := unseen - {p};
          if db.listings[next].createdAt < db.listings[p].createdAt {
            next := p;
          }
        }
        newest := newest + {next};
      }
    }

    method EnforceOwner(userId: UserId, now: int) returns (archived: set<PropertyId>)
      requires CommercialInv(db.Tables(), now)
      modifies db`quotas, db`listings
      ensures TurnChoice(old(db.Tables()), userId, archived, now)
      ensures db.Tables() == TurnRows(old(db.Tables()), userId, archived, now)
    {
      LimitIsNoDebt(db.Tables(), userId, now);
      var limit, count, graceEndsAt := GetListingCapacity(userId, now);
      archived := {};
      if graceEndsAt.Some? && graceEndsAt.value <= now && count > limit {
        archived := ArchiveNewest(userId, count - limit);
      }
      assert archived == {} ==> db.listings == Archived(db.listings, archived);
    }

    method ArchiveNewest(userId: UserId, excess: nat) returns (archived: set<PropertyId>)
      requires userId in db.quotas && excess <= |ActiveListings(db.listings, userId)|
      modifies db`quotas, db`listings
      ensures NewestOf(old(db.listings), ActiveListings(old(db.listings), userId), archived, excess)
      ensures db.listings == Archived(old(db.listings), archived)
      ensures db.quotas == old(db.quotas)[userId := old(db.quotas)[userId].(listingGraceEndsAt := None)]
    {
      archived := FindNewest(ActiveListings(db.listings, userId), excess);
      Archive(archived);
      db.quotas := db.quotas[userId := db.quotas[userId].(listingGraceEndsAt := None)];
    }

    method Archive(chosen: set<PropertyId>)
      modifies db`listings
      ensures db.listings == Archived(old(db.listings), chosen)
    {
      db.listings := map p | p in db.listings :: if p in chosen then db.listings[p].(status := ARCHIVED)
        else db.listings[p];
    }

    method TakeTurn(userId: UserId, now: int, ghost start: Rows, ghost waiting: set<UserId>,
        ghost turns: seq<OwnerTurn>)
      returns (ghost later: seq<OwnerTurn>)
      requires JobState(start, db.Tables(), waiting, turns, now) && userId in waiting
      modifies db`quotas, db`listings
      ensures JobState(start, db.Tables(), waiting - {userId}, later, now)
    {
      ghost var before := db.Tables();
      var archived := EnforceOwner(userId, now);
      JobTakesTurn(start, before, waiting, turns, userId, archived, now);
      later := turns + [OwnerTurn(userId, archived)];
    }

    /**
     The hourly job takes every owner's turn; no turn touches another owner's rows. At the end no owner is
     waiting, so each is within the limit or has a deadline ahead.
     */
    method ExpireEntitlementsAndEnforceCapacity(now: int) returns (ghost turns: seq<OwnerTurn>)
      requires CommercialInv(db.Tables(), now)
      modifies db`quotas, db`listings
      ensures JobState(old(db.Tables()), db.Tables(), {}, turns, now)
    {
      ghost var start := db.Tables();
      JobBegins(start, now);
      turns := [];
      var waiting := db.quotas.Keys;
      while waiting != {}
        invariant JobState(start, db.Tables(), waiting, turns, now)
        decreases |waiting|
      {
        var userId :| userId in waiting;
        turns := TakeTurn(userId, now, start, waiting, turns);
        waiting := waiting - {userId};
      }
    }
  }

  /** No owner's limit of active listings is below zero. */
  lemma {:induction false} LimitIsNoDebt(rows: Rows, u: UserId, now: int)
    requires CommercialInv(rows, now)
    ensures ActiveLimit(CapacityQuota(rows, u, now), rows.grants, u, now) >= 0
  {
    GraceKeepsInv(rows, u, now);
    UsableUnitsSign(rows.grants, u, ActiveListing, now);
  }

  class PaymentsService {
    const db: Database

    constructor (db: Database)
      ensures this.db == db
    {
      this.db := db;
    }

    method Checkout(userId: UserId, roleAllowed: bool, paymentType: PaymentType, propertyId: Option<PropertyId>,
                    providerOrderId: OrderId, now: int) returns (bought: bool)
      modifies db`transactions
      ensures (db.Tables(), bought) ==
              CommercialRuns.Checkout(old(db.Tables()), providerOrderId, userId, roleAllowed, paymentType, propertyId)
      ensures CommercialInv(old(db.Tables()), now) ==> CommercialInv(db.Tables(), now)
    {
      CallKeeps(db.Tables(), Buy(providerOrderId, userId, roleAllowed, paymentType, propertyId, now), now);
      if SettlesAs(paymentType) != Some(paymentType) {
        return false;
      }
      var snapshot := CheckoutSnapshot(db.Tables(), paymentType);
      if snapshot.None? || !roleAllowed {
        return false;
      }
      var product := snapshot.value.product;
      if product.kind == BOOST {
        if propertyId.None? {
          return false;
        }
        if propertyId.value !in db.listings || db.listings[propertyId.value].ownerId != userId
           || db.listings[propertyId.value].status != APPROVED {
          return false;
        }
      }
      if providerOrderId in db.transactions {
        return false;
      }
      db.transactions := db.transactions[providerOrderId := Transaction(
        userId, product.priceEgp as real, "EGP", paymentType, propertyId, snapshot, Pending, None, None)];
      bought := true;
    }

    method ProcessSuccessfulPayment(userId: UserId, paymentType: PaymentType, transactionId: string, order: OrderId,
        report: Report, paidAt: int)
      returns (settled: Settled)
      modifies db`quotas, db`grants, db`campaigns, db`listings, db`transactions
      ensures (db.Tables(), settled)
              == Settle(old(db.Tables()), order, userId, paymentType, transactionId, report, paidAt)
    {
      if order !in db.transactions || db.transactions[order].status != Pending {
        return Ignored;
      }
      var transaction := db.transactions[order];
      if (report.cents != Missing || report.currency.Some?)
         && (report.cents != Cents(ExpectedCents(transaction.amount)) || report.currency != Some(transaction.currency))
      {
        db.transactions := db.transactions[order :=
          transaction.(status := Failed, providerTransactionId := Some(transactionId))];
        return MarkedFailed;
      }
      settled := ClaimAndEntitle(userId, paymentType, transactionId, order, paidAt);
    }

    method ClaimAndEntitle(userId: UserId, paymentType: PaymentType, transactionId: string, order: OrderId, paidAt: int)
      returns (settled: Settled)
      requires order in db.transactions
      modifies db`quotas, db`grants, db`campaigns, db`listings, db`transactions
      ensures (db.Tables(), settled) == Fulfil(old(db.Tables()), order, userId, paymentType, transactionId, paidAt)
    {
      var transaction := db.transactions[order];
      var unclaimed := db.transactions;
      db.transactions := db.transactions[order :=
        transaction.(status := Success, providerTransactionId := Some(transactionId), paidAt := Some(paidAt))];
      var settlesAs := SettlesAs(paymentType);
      if settlesAs.None? {
        return Paid(NoEffect);
      }
      var snapshot := ResolveSnapshot(transaction, settlesAs.value);
      assert snapshot == ProductFor(old(db.Tables()), transaction, settlesAs.value);
      var effect := Entitle(order, userId, paymentType, transaction.targetPropertyId, snapshot, paidAt);
      if effect.None? {
        db.transactions := unclaimed;
        return Refused;
      }
      settled := Paid(effect.value);
    }

    method ResolveSnapshot(transaction: Transaction, settlesAs: PaymentType) returns (s: Snapshot)
      ensures s == ProductFor(db.Tables(), transaction, settlesAs)
    {
      if transaction.catalogSnapshot.Some? {
        return transaction.catalogSnapshot.value;
      }
      var product := ResolvedProduct(db.products, settlesAs);
      s := Snapshot(product, None);
      if product.planType.Some? {
        s := s.(planAllowances := Some(PlanAllowances(db.plans, product.planType.value)));
      }
    }

    /** The three product kinds; None stands for the exceptions that roll everything back. */
    method Entitle(order: OrderId, userId: UserId, paymentType: PaymentType, target: Option<PropertyId>, s: Snapshot,
        paidAt: int)
      returns (effect: Option<Effect>)
      modifies db`quotas, db`grants, db`campaigns, db`listings
      ensures match Grants(old(db.Tables()), order, userId, paymentType, target, s, paidAt)
              case None => effect == None && db.Tables() == old(db.Tables())
              case Some(done) => effect == Some(done.1) && db.Tables() == done.0
    {
      var product := s.product;
      if product.kind == SUBSCRIPTION {
        if product.billing == OneTime || product.planType.None? {
          return None;
        }
        Subscribe(userId, product.planType.value, product.billing, s.planAllowances, paidAt);
        return Some(PlanChanged);
      } else if product.kind == ENTITLEMENT {
        if product.entitlementType.None? || product.validityDays == 0 || product.quantity == 0 {
          return None;
        }
        var expiresAt := AddDays(paidAt, product.validityDays);
        var quantity := if paymentType == SingleOffer then 1 else product.quantity;
        db.grants := db.grants + [Grant(userId, Some(order), product.entitlementType.value, quantity, quantity, paidAt,
          expiresAt)];
        return Some(GrantCreated);
      } else {
        if target.None? || product.durationDays == 0 {
          return None;
        }
        if target.value !in db.listings || db.listings[target.value].ownerId != userId {
          return None;
        }
        db.CreateCampaign(target.value, userId, Some(order), product.durationDays, paidAt);
        return Some(CampaignCreated);
      }
    }

    method Subscribe(userId: UserId, targetPlan: PaidPlan, billing: Billing, planAllowances: Option<Allowances>,
        paidAt: int)
      modifies db`quotas
      ensures var a := if planAllowances.Some? then planAllowances.value else PlanAllowances(db.plans, targetPlan);
              db.quotas == old(db.quotas)[userId :=
                SettleSubscription(QuotaRow(old(db.Tables()), userId), targetPlan, billing, paidAt, a)]
      ensures var a := if planAllowances.Some? then planAllowances.value else PlanAllowances(db.plans, targetPlan);
              && userId in db.quotas
              && PlanGiven(QuotaRow(old(db.Tables()), userId), db.quotas[userId], targetPlan, billing, a, paidAt)
    {
      SettlingGivesPlan(QuotaRow(db.Tables(), userId), targetPlan, billing, paidAt,
                        if planAllowances.Some? then planAllowances.value else PlanAllowances(db.plans, targetPlan));
      var current := if userId in db.quotas then Some(db.quotas[userId]) else None;
      var targetRank := if targetPlan == Premium then 2 else 1;
      var currentPlan := if current.Some? then current.value.planType else Free;
      var currentRank := if currentPlan == Premium then 2 else if currentPlan == OwnerPlus then 1 else 0;
      var currentIsActive := current.Some? && current.value.planExpiresAt.Some?
        && current.value.planExpiresAt.value > paidAt;
      if currentIsActive && targetRank < currentRank {
        var startsAt := current.value.planExpiresAt.value;
        db.quotas := db.quotas[userId := current.value.(
          pendingPlanType := Some(targetPlan),
          pendingBillingInterval := Some(billing),
          pendingPlanStartsAt := Some(startsAt),
          pendingPlanExpiresAt := Some(DurationEnd(billing, startsAt)))];
      } else if currentIsActive && targetRank == currentRank {
        var startsAt := current.value.planExpiresAt.value;
        db.quotas := db.quotas[userId := current.value.(
          planExpiresAt := Some(DurationEnd(billing, startsAt)),
          billingInterval := Some(billing))];
      } else {
        var allowances := if planAllowances.Some? then planAllowances.value else PlanAllowances(db.plans, targetPlan);
        StartPlan(userId, targetPlan, billing, allowances, paidAt);
      }
    }

    /** The upsert of a plan that starts at once; only the grace of a listing excess is left from before. */
    method StartPlan(userId: UserId, targetPlan: PaidPlan, billing: Billing, allowances: Allowances, paidAt: int)
      requires !PlanActive(QuotaRow(db.Tables(), userId), paidAt) || Rank(targetPlan) > Rank(db.quotas[userId].planType)
      modifies db`quotas
      ensures db.quotas == old(db.quotas)[userId :=
                SettleSubscription(QuotaRow(old(db.Tables()), userId), targetPlan, billing, paidAt, allowances)]
    {
      db.quotas := db.quotas[userId := UserQuota(
        targetPlan, Some(DurationEnd(billing, paidAt)), Some(billing), None, None, None, None,
        allowances.activeListings, allowances.offers, allowances.aiUses, allowances.boostCredits,
        Some(paidAt), Some(AddMonth(paidAt)),
        if userId in db.quotas then db.quotas[userId].listingGraceEndsAt else None, paidAt)];
    }

    method HandleWebhook(w: WebhookResult, now: int) returns (settled: Settled)
      modifies db`quotas, db`grants, db`campaigns, db`listings, db`transactions
      ensures (db.Tables(), settled) == Settlement.HandleWebhook(old(db.Tables()), w, now)
      ensures CommercialInv(old(db.Tables()), now) ==> CommercialInv(db.Tables(), now)
    {
      CallKeeps(db.Tables(), Webhook(w, now), now);
      if !w.isValid {
        return Refused;
      }
      var userId, paymentType := w.userId, w.paymentType;
      var saved := false;
      if w.providerOrderId.Some? && w.providerOrderId.value in db.transactions {
        saved := true;
        userId := Some(db.transactions[w.providerOrderId.value].userId);
        paymentType := Some(db.transactions[w.providerOrderId.value].paymentType);
      }
      if w.success && userId.Some? && paymentType.Some? {
        if w.providerOrderId.None? {
          return Ignored;
        }
        settled := ProcessSuccessfulPayment(userId.value, paymentType.value, w.transactionId, w.providerOrderId.value,
          w.report, now);
      } else if w.isFinal && saved && db.transactions[w.providerOrderId.value].status == Pending {
        var order := w.providerOrderId.value;
        db.transactions := db.transactions[order :=
          db.transactions[order].(status := Failed, providerTransactionId := Some(w.transactionId))];
        settled := MarkedFailed;
      } else {
        settled := Ignored;
      }
    }

    /**
     The hourly pass over flags, campaigns and the pending orders its
     query returned; an exception leaves the rest to the next pass.
     */
    method ReconcilePendingTransactions(first: int, second: int, answers: seq<Answer>)
      modifies db`quotas, db`grants, db`campaigns, db`listings, db`transactions
      ensures db.Tables() == Do(old(db.Tables()), HourlyPass(first, second, answers))
      ensures CommercialInv(old(db.Tables()), first) && CallTimed(HourlyPass(first, second, answers), first)
              ==> CommercialInv(db.Tables(), CallEnd(HourlyPass(first, second, answers)))
    {
      CallKeeps(db.Tables(), HourlyPass(first, second, answers), first);
      db.listings := map p | p in db.listings :: ReconciledListing(db.listings[p], first);
      db.campaigns := ReconciledCampaigns(db.campaigns, second);
      SettlePendingTransactions(answers);
    }

    /** The loop over the pending transactions, with what the gateway answered for each. */
    method SettlePendingTransactions(answers: seq<Answer>)
      modifies db`quotas, db`grants, db`campaigns, db`listings, db`transactions
      ensures db.Tables() == SettlePending(old(db.Tables()), answers)
    {
      ghost var start := db.Tables();
      var i := 0;
      while i < |answers|
        invariant 0 <= i <= |answers|
        invariant SettlePending(db.Tables(), answers[i..]) == SettlePending(start, answers)
      {
        var a := answers[i];
        assert answers[i..][0] == a && answers[i..][1..] == answers[i + 1..];
        if a.transactionId.Some? && a.order in db.transactions {
          var transaction := db.transactions[a.order];
          var settled := ProcessSuccessfulPayment(transaction.userId, transaction.paymentType, a.transactionId.value,
            a.order, NO_REPORT, a.at);
          if settled == Refused {
            return;
          }
        }
        i := i + 1;
      }
    }
  }

  class PropertiesService {
    const db: Database
    const quotaService: QuotaService

    constructor (db: Database, quotaService: QuotaService)
      requires quotaService.db == db
      ensures this.db == db && this.quotaService == quotaService
    {
      this.db := db;
      this.quotaService := quotaService;
    }

    method Create(ownerId: UserId, propertyId: PropertyId, regionOpen: bool, now: int) returns (created: bool)
      requires quotaService.db == db
      modifies db`quotas, db`listings
      ensures (db.Tables(), created) == CreateListing(old(db.Tables()), ownerId, propertyId, regionOpen, now)
      ensures CommercialInv(old(db.Tables()), now) ==> CommercialInv(db.Tables(), now)
    {
      CreateKeeps(db.Tables(), ownerId, propertyId, regionOpen, now);
      created := CreateWithinLimit(ownerId, propertyId, regionOpen, now);
    }

    method CreateWithinLimit(ownerId: UserId, propertyId: PropertyId, regionOpen: bool, now: int)
        returns (created: bool)
      requires quotaService.db == db
      modifies db`quotas, db`listings
      ensures (db.Tables(), created) == CreateListing(old(db.Tables()), ownerId, propertyId, regionOpen, now)
    {
      var limit, count, graceEndsAt := quotaService.GetListingCapacity(ownerId, now);
      if count >= limit {
        return false;
      }
      if !regionOpen || propertyId in db.listings {
        return false;
      }
      db.listings := db.listings[propertyId := Listing(ownerId, PENDING, now, false, None)];
      created := true;
    }

    method Archive(ownerId: UserId, propertyId: PropertyId, now: int) returns (found: bool)
      modifies db`listings
      ensures (db.Tables(), found) == ArchiveListing(old(db.Tables()), ownerId, propertyId)
      ensures CommercialInv(old(db.Tables()), now) ==> CommercialInv(db.Tables(), now)
    {
      CallKeeps(db.Tables(), Relabel(propertyId, ARCHIVED, now), now);
      if propertyId !in db.listings || db.listings[propertyId].ownerId != ownerId {
        return false;
      }
      db.listings := db.listings[propertyId := db.listings[propertyId].(status := ARCHIVED)];
      found := true;
    }

    method Unarchive(ownerId: UserId, propertyId: PropertyId, now: int) returns (found: bool)
      modifies db`listings
      ensures (db.Tables(), found) == UnarchiveListing(old(db.Tables()), ownerId, propertyId)
      ensures CommercialInv(old(db.Tables()), now) ==> CommercialInv(db.Tables(), now)
    {
      CallKeeps(db.Tables(), Unlist(propertyId, PENDING, now), now);
      if propertyId !in db.listings || db.listings[propertyId].ownerId != ownerId {
        return false;
      }
      db.listings := db.listings[propertyId :=
        db.listings[propertyId].(status := PENDING, isBoosted := false, boostedUntil := None)];
      found := true;
    }
  }

  class CommercialConfigService {
    const db: Database

    constructor (db: Database)
      ensures this.db == db
    {
      this.db := db;
    }

    method Rebase(quota: UserQuota, previous: Allowances, next: Allowances) returns (rebased: UserQuota)
      ensures rebased == RebasedQuota(quota, previous, next)
    {
      var usedOffers := Max0(previous.offers - quota.freeOffersLeft);
      var usedAi := Max0(previous.aiUses - quota.optimizerUsesLeft);
      var usedBoosts := Max0(previous.boostCredits - quota.boostCreditsLeft);
      rebased := quota.(
        maxActiveListings := next.activeListings,
        freeOffersLeft := Max0(next.offers - usedOffers),
        optimizerUsesLeft := Max0(next.aiUses - usedAi),
        boostCreditsLeft := Max0(next.boostCredits - usedBoosts));
    }

    method UpdateProduct(paymentType: PaymentType, dto: ProductOverride, now: int) returns (updated: bool)
      modifies db`products
      ensures (db.Tables(), updated) == CommercialRuns.UpdateProduct(old(db.Tables()), paymentType, dto)
      ensures updated ==> var p := ResolvedProduct(db.products, paymentType);
                          && p.kind == DefaultProduct(paymentType).kind
                          && (p.kind == ENTITLEMENT ==> p.quantity > 0 && p.validityDays > 0)
                          && (p.kind == BOOST ==> p.durationDays > 0)
      ensures CommercialInv(old(db.Tables()), now) ==> CommercialInv(db.Tables(), now)
    {
      CallKeeps(db.Tables(), EditProduct(paymentType, dto, now), now);
      EditedProductIsSellable(db.Tables(), paymentType, dto);
      updated := StoreProduct(paymentType, dto);
    }

    /** The amounts that the kind of product needs, or none at all. */
    method StoreProduct(paymentType: PaymentType, dto: ProductOverride) returns (updated: bool)
      modifies db`products
      ensures (db.Tables(), updated) == CommercialRuns.UpdateProduct(old(db.Tables()), paymentType, dto)
    {
      if SettlesAs(paymentType) != Some(paymentType) {
        return false;
      }
      var defaults := DefaultProduct(paymentType);
      var data := ProductOverride(dto.priceEgp, dto.enabled, None, None, None);
      if defaults.kind == ENTITLEMENT {
        data := data.(quantity := dto.quantity, validityDays := dto.validityDays);
        if Or(data.quantity, 0) == 0 || Or(data.validityDays, 0) == 0 {
          return false;
        }
      } else if defaults.kind == BOOST {
        data := data.(durationDays := dto.durationDays);
        if Or(data.durationDays, 0) == 0 {
          return false;
        }
      }
      db.products := db.products[paymentType := data];
      updated := true;
    }

    method UpdatePlan(planType: Plan, next: Allowances, now: int)
      modifies db`plans, db`quotas
      ensures db.Tables() == CommercialRuns.UpdatePlan(old(db.Tables()), planType, next)
      ensures next.boostDurationDays >= 1 && CommercialInv(old(db.Tables()), now) ==> CommercialInv(db.Tables(), now)
    {
      CallKeeps(db.Tables(), EditPlan(planType, next, now), now);
      StorePlan(planType, next);
    }

    /** The transaction: the row of the plan, then the quotas on it. */
    method StorePlan(planType: Plan, next: Allowances)
      modifies db`plans, db`quotas
      ensures db.Tables() == CommercialRuns.UpdatePlan(old(db.Tables()), planType, next)
    {
      var previous := PlanAllowances(db.plans, planType);
      db.plans := db.plans[planType := next];
      RebaseQuotas(planType, previous, next);
      RebasedAll(old(db.Tables()), planType, next);
    }

    /** The loop over the quotas of the plan. */
    method RebaseQuotas(planType: Plan, previous: Allowances, next: Allowances)
      modifies db`quotas
      ensures var all := set u | u in old(db.quotas) && old(db.quotas)[u].planType == planType;
              db.quotas == RebasedSome(old(db.quotas), all, previous, next)
    {
      var waiting := set u | u in db.quotas && db.quotas[u].planType == planType;
      ghost var quotas, all := db.quotas, waiting;
      while waiting != {}
        invariant waiting <= all <= quotas.Keys
        invariant db.quotas == RebasedSome(quotas, all - waiting, previous, next)
        decreases |waiting|
      {
        var u :| u in waiting;
        RebasedOneMore(quotas, all - waiting, u, previous, next);
        assert all - (waiting - {u}) == all - waiting + {u};
        var quota := Rebase(db.quotas[u], previous, next);
        db.quotas := db.quotas[u := quota];
        waiting := waiting - {u};
      }
      assert all - waiting == all;
    }
  }
}
