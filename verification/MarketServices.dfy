/** The offer, tenant-offer and message services over their tables, in the order in which the code reads and writes. */
module MarketServices {
  import opened Wrappers
  import opened Marketplace
  import PricingCatalog
  import Ledger
  import Settlement
  import CommercialRuns
  import Services

  class MarketDatabase {
    var requests: map<RequestId, Request>
    var listings: map<PropertyId, Listing>
    var ownerOffers: seq<OwnerOffer>
    var tenantOffers: seq<TenantOffer>
    var connections: seq<Connection>

    ghost function Tables(): Market
      reads this
    {
      Market(requests, listings, ownerOffers, tenantOffers, connections)
    }
  }

  lemma {:induction false} CallKeeps(s: Market, u: UserId, call: Call)
    ensures MarketInv(s) ==> MarketInv(Do(s, u, call).market)
  {
    if MarketInv(s) {
      CallKeepsInv(s, u, call);
    }
  }

  lemma {:induction false} OfferKeeps(s: Market, u: UserId, r: RequestId, p: PropertyId, unit: bool)
    ensures MarketInv(s) ==> MarketInv(Marketplace.CreateOffer(s, u, r, p, unit).market)
  {
    assert Do(s, u, Offer(r, p, unit)) == Marketplace.CreateOffer(s, u, r, p, unit);
    CallKeeps(s, u, Offer(r, p, unit));
  }

  lemma {:induction false} LandlordAcceptKeeps(s: Market, u: UserId, i: nat)
    ensures MarketInv(s) ==> MarketInv(Marketplace.LandlordAccept(s, u, i).market)
  {
    assert Do(s, u, LandlordAccepts(i)) == Marketplace.LandlordAccept(s, u, i);
    CallKeeps(s, u, LandlordAccepts(i));
  }

  lemma {:induction false} TenantAcceptKeeps(s: Market, u: UserId, i: nat)
    ensures MarketInv(s) ==> MarketInv(Marketplace.TenantAccept(s, u, i).market)
  {
    assert Do(s, u, TenantAccepts(i)) == Marketplace.TenantAccept(s, u, i);
    CallKeeps(s, u, TenantAccepts(i));
  }

  lemma {:induction false} AcceptKeeps(s: Market, u: UserId, i: nat)
    ensures MarketInv(s) ==> MarketInv(Marketplace.AcceptOffer(s, u, i).market)
  {
    assert Do(s, u, Accept(i)) == Marketplace.AcceptOffer(s, u, i);
    CallKeeps(s, u, Accept(i));
  }

  lemma {:induction false} ConfirmKeeps(s: Market, u: UserId, id: nat, now: int, t: Market, refusal: Option<Refusal>)
    requires Outcome(t, refusal) == Marketplace.ConfirmAgreement(s, u, id, now)
    ensures MarketInv(s) ==> MarketInv(t)
  {
    assert Do(s, u, Confirm(id, now)) == Marketplace.ConfirmAgreement(s, u, id, now);
    CallKeeps(s, u, Confirm(id, now));
  }

  /** What an owner's next call would find of the allowance for offers. */
  ghost function OfferAccount(rows: Settlement.Rows, u: UserId, now: int): Ledger.Account {
    var r := CommercialRuns.EnsureRow(rows, u, now);
    Ledger.Account(r.quotas[u], r.grants)
  }

  ghost function OfferUnits(rows: Settlement.Rows, u: UserId, now: int): int {
    Ledger.LiveTotal(OfferAccount(rows, u, now), u, PricingCatalog.MatchedOffer, now)
  }

  class OffersService {
    const db: MarketDatabase
    const quotaService: Services.QuotaService

    constructor (db: MarketDatabase, quotaService: Services.QuotaService)
      ensures this.db == db && this.quotaService == quotaService
    {
      this.db := db;
      this.quotaService := quotaService;
    }

    /** An offer is made exactly where one may be made and a unit is left, and then that unit is spent for it. */
    method CreateOffer(landlordId: UserId, requestId: RequestId, propertyId: PropertyId, now: int)
      returns (refusal: Option<Refusal>)
      requires CommercialRuns.CommercialInv(quotaService.db.Tables(), now)
      modifies db`ownerOffers
      modifies quotaService.db`quotas, quotaService.db`grants, quotaService.db`ownerOffers
      ensures Outcome(db.Tables(), refusal) ==
              Marketplace.CreateOffer(old(db.Tables()), landlordId, requestId, propertyId,
                                      OfferUnits(old(quotaService.db.Tables()), landlordId, now) > 0)
      ensures MarketInv(old(db.Tables())) ==> MarketInv(db.Tables())
      ensures refusal.None? ==>
                && landlordId in quotaService.db.quotas
                && var left := Ledger.Account(quotaService.db.quotas[landlordId], quotaService.db.grants);
                   Ledger.AllUnits(left)
                   == Ledger.AllUnits(OfferAccount(old(quotaService.db.Tables()), landlordId, now)) - 1
      ensures refusal == Some(NoUnitLeft) ==>
                quotaService.db.Tables() == CommercialRuns.EnsureRow(old(quotaService.db.Tables()), landlordId, now)
      ensures refusal.Some? && refusal != Some(NoUnitLeft) ==> quotaService.db.Tables() == old(quotaService.db.Tables())
    {
      OfferKeeps(db.Tables(), landlordId, requestId, propertyId,
                 OfferUnits(quotaService.db.Tables(), landlordId, now) > 0);
      if requestId !in db.requests || db.requests[requestId].status != ApprovedRequest {
        return Some(NotFound);
      }
      if propertyId !in db.listings || db.listings[propertyId].owner != landlordId {
        return Some(NotFound);
      }
      if db.listings[propertyId].status != ApprovedListing {
        return Some(Forbidden);
      }
      if Offered(db.ownerOffers, landlordId, requestId) {
        return Some(Conflict);
      }
      var spent := SpendUnit(landlordId, now);
      if !spent {
        return Some(NoUnitLeft);
      }
      db.ownerOffers := db.ownerOffers + [OwnerOffer(landlordId, requestId, propertyId, Sent)];
      refusal := None;
    }

    method SpendUnit(landlordId: UserId, now: int) returns (spent: bool)
      requires CommercialRuns.CommercialInv(quotaService.db.Tables(), now)
      modifies quotaService.db`quotas, quotaService.db`grants, quotaService.db`ownerOffers
      ensures spent <==> OfferUnits(old(quotaService.db.Tables()), landlordId, now) > 0
      ensures spent ==>
                && landlordId in quotaService.db.quotas
                && var left := Ledger.Account(quotaService.db.quotas[landlordId], quotaService.db.grants);
                   Ledger.AllUnits(left)
                   == Ledger.AllUnits(OfferAccount(old(quotaService.db.Tables()), landlordId, now)) - 1
      ensures !spent ==>
                quotaService.db.Tables() == CommercialRuns.EnsureRow(old(quotaService.db.Tables()), landlordId, now)
    {
      var remaining := quotaService.WithConsumedOffer(landlordId, true, now);
      spent := remaining.Some?;
    }

    method ViewOffer(tenantId: UserId, offerId: nat) returns (refusal: Option<Refusal>)
      modifies db`ownerOffers
      ensures Outcome(db.Tables(), refusal) == Marketplace.ViewOffer(old(db.Tables()), tenantId, offerId)
      ensures MarketInv(old(db.Tables())) ==> MarketInv(db.Tables())
    {
      CallKeeps(db.Tables(), tenantId, View(offerId));
      var owned := FindOwnedOffer(tenantId, offerId);
      if !owned {
        return Some(NotFound);
      }
      var offer := db.ownerOffers[offerId];
      if offer.status == Sent {
        db.ownerOffers := db.ownerOffers[offerId := offer.(status := Viewed)];
      }
      refusal := None;
    }

    method FindOwnedOffer(tenantId: UserId, offerId: nat) returns (owned: bool)
      ensures owned <==> OwnedOffer(db.Tables(), tenantId, offerId)
    {
      owned := offerId < |db.ownerOffers|
               && db.ownerOffers[offerId].request in db.requests
               && db.requests[db.ownerOffers[offerId].request].tenant == tenantId;
    }

    method AcceptOffer(tenantId: UserId, offerId: nat) returns (refusal: Option<Refusal>)
      modifies db`ownerOffers, db`connections
      ensures Outcome(db.Tables(), refusal) == Marketplace.AcceptOffer(old(db.Tables()), tenantId, offerId)
      ensures MarketInv(old(db.Tables())) ==> MarketInv(db.Tables())
    {
      AcceptKeeps(db.Tables(), tenantId, offerId);
      var owned := FindOwnedOffer(tenantId, offerId);
      if !owned {
        return Some(NotFound);
      }
      var offer := db.ownerOffers[offerId];
      if offer.status != Sent && offer.status != Viewed {
        return Some(Conflict);
      }
      if offer.property !in db.listings || db.listings[offer.property].status != ApprovedListing {
        return Some(Forbidden);
      }
      if db.requests[offer.request].status != ApprovedRequest {
        return Some(Conflict);
      }
      db.ownerOffers := db.ownerOffers[offerId := offer.(status := Accepted)];
      db.connections := db.connections + [Connection(tenantId, offer.property, offer.owner, Some(offer.request), None)];
      refusal := None;
    }

    method RejectOffer(tenantId: UserId, offerId: nat) returns (refusal: Option<Refusal>)
      modifies db`ownerOffers
      ensures Outcome(db.Tables(), refusal) == Marketplace.RejectOffer(old(db.Tables()), tenantId, offerId)
      ensures MarketInv(old(db.Tables())) ==> MarketInv(db.Tables())
    {
      CallKeeps(db.Tables(), tenantId, Reject(offerId));
      var owned := FindOwnedOffer(tenantId, offerId);
      if !owned {
        return Some(NotFound);
      }
      var offer := db.ownerOffers[offerId];
      if offer.status != Sent && offer.status != Viewed {
        return Some(Conflict);
      }
      db.ownerOffers := db.ownerOffers[offerId := offer.(status := Rejected)];
      refusal := None;
    }
  }

  class TenantOffersService {
    const db: MarketDatabase

    constructor (db: MarketDatabase)
      ensures this.db == db
    {
      this.db := db;
    }

    method Create(tenantId: UserId, propertyId: PropertyId, price: real) returns (refusal: Option<Refusal>)
      modifies db`tenantOffers
      ensures Outcome(db.Tables(), refusal) == CreateTenantOffer(old(db.Tables()), tenantId, propertyId, price)
      ensures MarketInv(old(db.Tables())) ==> MarketInv(db.Tables())
    {
      CallKeeps(db.Tables(), tenantId, OfferRent(propertyId, price));
      if propertyId !in db.listings {
        return Some(NotFound);
      }
      var property := db.listings[propertyId];
      if property.status != ApprovedListing {
        return Some(Forbidden);
      }
      if property.owner == tenantId {
        return Some(Forbidden);
      }
      if HasActive(db.tenantOffers, tenantId, propertyId) {
        return Some(Conflict);
      }
      db.tenantOffers := db.tenantOffers + [TenantOffer(tenantId, propertyId, property.owner, price, None, Pending)];
      refusal := None;
    }

    method LandlordAccept(ownerId: UserId, offerId: nat) returns (refusal: Option<Refusal>)
      modifies db`tenantOffers, db`connections
      ensures Outcome(db.Tables(), refusal) == Marketplace.LandlordAccept(old(db.Tables()), ownerId, offerId)
      ensures MarketInv(old(db.Tables())) ==> MarketInv(db.Tables())
      ensures refusal.None? ==>
                && offerId < |db.tenantOffers| == |old(db.tenantOffers)|
                && var o := old(db.tenantOffers)[offerId];
                   o.owner == ownerId && o.status == Pending && db.tenantOffers[offerId].status == TenantAccepted
    {
      LandlordAcceptKeeps(db.Tables(), ownerId, offerId);
      if offerId >= |db.tenantOffers| || db.tenantOffers[offerId].owner != ownerId {
        return Some(NotFound);
      }
      if db.tenantOffers[offerId].status != Pending {
        return Some(Conflict);
      }
      refusal := SettleAsMatch(offerId);
    }

    method LandlordDecline(ownerId: UserId, offerId: nat) returns (refusal: Option<Refusal>)
      modifies db`tenantOffers
      ensures Outcome(db.Tables(), refusal) == Marketplace.LandlordDecline(old(db.Tables()), ownerId, offerId)
      ensures MarketInv(old(db.Tables())) ==> MarketInv(db.Tables())
      ensures refusal.None? ==>
                && offerId < |db.tenantOffers| == |old(db.tenantOffers)|
                && var o := old(db.tenantOffers)[offerId];
                   o.owner == ownerId && o.Active() && db.tenantOffers[offerId].status == Declined
    {
      CallKeeps(db.Tables(), ownerId, LandlordDeclines(offerId));
      if offerId >= |db.tenantOffers| || db.tenantOffers[offerId].owner != ownerId {
        return Some(NotFound);
      }
      var offer := db.tenantOffers[offerId];
      if offer.status != Pending && offer.status != Countered {
        return Some(Conflict);
      }
      db.tenantOffers := db.tenantOffers[offerId := offer.(status := Declined)];
      refusal := None;
    }

    method LandlordCounter(ownerId: UserId, offerId: nat, price: real) returns (refusal: Option<Refusal>)
      modifies db`tenantOffers
      ensures Outcome(db.Tables(), refusal) == Marketplace.LandlordCounter(old(db.Tables()), ownerId, offerId, price)
      ensures MarketInv(old(db.Tables())) ==> MarketInv(db.Tables())
      ensures refusal.None? ==>
                && offerId < |db.tenantOffers| == |old(db.tenantOffers)|
                && var o := old(db.tenantOffers)[offerId];
                   o.owner == ownerId && o.status == Pending && db.tenantOffers[offerId].status == Countered
    {
      CallKeeps(db.Tables(), ownerId, LandlordCounters(offerId, price));
      if offerId >= |db.tenantOffers| || db.tenantOffers[offerId].owner != ownerId {
        return Some(NotFound);
      }
      var offer := db.tenantOffers[offerId];
      if offer.status != Pending {
        return Some(Conflict);
      }
      db.tenantOffers := db.tenantOffers[offerId := offer.(status := Countered, counter := Some(price))];
      refusal := None;
    }

    method TenantAccept(tenantId: UserId, offerId: nat) returns (refusal: Option<Refusal>)
      modifies db`tenantOffers, db`connections
      ensures Outcome(db.Tables(), refusal) == Marketplace.TenantAccept(old(db.Tables()), tenantId, offerId)
      ensures MarketInv(old(db.Tables())) ==> MarketInv(db.Tables())
      ensures refusal.None? ==>
                && offerId < |db.tenantOffers| == |old(db.tenantOffers)|
                && var o := old(db.tenantOffers)[offerId];
                   o.tenant == tenantId && o.status == Countered && db.tenantOffers[offerId].status == TenantAccepted
    {
      TenantAcceptKeeps(db.Tables(), tenantId, offerId);
      if offerId >= |db.tenantOffers| || db.tenantOffers[offerId].tenant != tenantId {
        return Some(NotFound);
      }
      if db.tenantOffers[offerId].status != Countered {
        return Some(Conflict);
      }
      refusal := SettleAsMatch(offerId);
    }

    method TenantWithdraw(tenantId: UserId, offerId: nat) returns (refusal: Option<Refusal>)
      modifies db`tenantOffers
      ensures Outcome(db.Tables(), refusal) == Marketplace.TenantWithdraw(old(db.Tables()), tenantId, offerId)
      ensures MarketInv(old(db.Tables())) ==> MarketInv(db.Tables())
      ensures refusal.None? ==>
                && offerId < |db.tenantOffers| == |old(db.tenantOffers)|
                && var o := old(db.tenantOffers)[offerId];
                   o.tenant == tenantId && o.Active() && db.tenantOffers[offerId].status == Withdrawn
    {
      CallKeeps(db.Tables(), tenantId, TenantWithdraws(offerId));
      if offerId >= |db.tenantOffers| || db.tenantOffers[offerId].tenant != tenantId {
        return Some(NotFound);
      }
      var offer := db.tenantOffers[offerId];
      if offer.status != Pending && offer.status != Countered {
        return Some(Conflict);
      }
      db.tenantOffers := db.tenantOffers[offerId := offer.(status := Withdrawn)];
      refusal := None;
    }

    method SettleAsMatch(offerId: nat) returns (refusal: Option<Refusal>)
      requires offerId < |db.tenantOffers|
      modifies db`tenantOffers, db`connections
      ensures Outcome(db.Tables(), refusal) == Marketplace.SettleAsMatch(old(db.Tables()), offerId)
    {
      var offer := db.tenantOffers[offerId];
      if offer.property !in db.listings || db.listings[offer.property].status != ApprovedListing {
        return Some(Forbidden);
      }
      if !offer.Active() {
        return Some(Conflict);
      }
      db.tenantOffers := db.tenantOffers[offerId := offer.(status := TenantAccepted)];
      var existing := DirectOf(db.connections, offer);
      if existing.None? {
        db.connections := db.connections + [Connection(offer.tenant, offer.property, offer.owner, None, None)];
      }
      refusal := None;
    }
  }

  class MessagesService {
    const db: MarketDatabase

    constructor (db: MarketDatabase)
      ensures this.db == db
    {
      this.db := db;
    }

    method ConfirmAgreement(userId: UserId, id: nat, now: int) returns (refusal: Option<Refusal>)
      modifies db
      ensures Outcome(db.Tables(), refusal) == Marketplace.ConfirmAgreement(old(db.Tables()), userId, id, now)
      ensures MarketInv(old(db.Tables())) ==> MarketInv(db.Tables())
    {
      refusal := ConfirmSteps(userId, id, now);
      ConfirmKeeps(old(db.Tables()), userId, id, now, db.Tables(), refusal);
    }

    /** Who may confirm, and whether there is anything left to confirm. */
    method ConfirmSteps(userId: UserId, id: nat, now: int) returns (refusal: Option<Refusal>)
      modifies db
      ensures Outcome(db.Tables(), refusal) == Marketplace.ConfirmAgreement(old(db.Tables()), userId, id, now)
    {
      if id >= |db.connections| || (db.connections[id].tenant != userId && db.connections[id].owner != userId) {
        return Some(NotFound);
      }
      var connection := db.connections[id];
      var confirmer := if connection.request.Some? then connection.tenant else connection.owner;
      if userId != confirmer {
        return Some(OnlyDesignatedParty);
      }
      if connection.agreedAt.Some? {
        return None;
      }
      refusal := ReachAgreement(id, now);
    }

    /** The statements of the transaction one after the other; where one fails, what was written is put back. */
    method ReachAgreement(id: nat, now: int) returns (refusal: Option<Refusal>)
      requires id < |db.connections|
      modifies db
      ensures Outcome(db.Tables(), refusal) ==
              if RequestOpen(old(db.Tables()), old(db.connections)[id]) then Done(Agreed(old(db.Tables()), id, now))
              else Refused(old(db.Tables()), RequestAlreadySettled)
    {
      var connection := db.connections[id];
      var saved := db.connections;
      db.connections := db.connections[id := connection.(agreedAt := Some(now))];
      if connection.request.Some? {
        var requestId := connection.request.value;
        if requestId !in db.requests || db.requests[requestId].tenant != connection.tenant
           || db.requests[requestId].status != ApprovedRequest {
          db.connections := saved;
          return Some(RequestAlreadySettled);
        }
        db.requests := db.requests[requestId := db.requests[requestId].(status := Fulfilled)];
      }
      CloseOffers(connection.request, connection.property);
      refusal := None;
    }

    method CloseOffers(request: Option<RequestId>, property: PropertyId)
      modifies db`ownerOffers, db`tenantOffers, db`listings
      ensures db.ownerOffers == RejectedOn(old(db.ownerOffers), request, property)
      ensures db.tenantOffers == DeclinedOn(old(db.tenantOffers), property)
      ensures db.listings == Archived(old(db.listings), property)
    {
      db.ownerOffers := RejectedOn(db.ownerOffers, request, property);
      db.tenantOffers := DeclinedOn(db.tenantOffers, property);
      if property in db.listings {
        db.listings := db.listings[property := db.listings[property].(status := ArchivedListing)];
      }
    }
  }
}
