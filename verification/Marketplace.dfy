/**
 Requests, owner offers, tenant offers and the connections they lead to, up to an agreement. Rows are
 never deleted, so offers and connections are known by their place in their tables. Every call is one step.
 */
module Marketplace {
  import opened Wrappers

  type UserId = string
  type RequestId = string
  type PropertyId = string

  datatype RequestStatus = PendingRequest | ApprovedRequest | RejectedRequest | Fulfilled | Closed | ArchivedRequest
  datatype ListingStatus = PendingListing | ApprovedListing | RejectedListing | ArchivedListing
  datatype OwnerOfferStatus = Sent | Viewed | Accepted | Rejected
  datatype TenantOfferStatus = Pending | Countered | TenantAccepted | Declined | Withdrawn

  datatype Request = Request(tenant: UserId, status: RequestStatus)
  datatype Listing = Listing(owner: UserId, status: ListingStatus)
  datatype OwnerOffer = OwnerOffer(owner: UserId, request: RequestId, property: PropertyId, status: OwnerOfferStatus) {
    predicate Open() { status.Sent? || status.Viewed? }
  }
  datatype TenantOffer = TenantOffer(tenant: UserId, property: PropertyId, owner: UserId, price: real,
      counter: Option<real>, status: TenantOfferStatus)
  {
    predicate Active() { status.Pending? || status.Countered? }
  }
  datatype Connection = Connection(tenant: UserId, property: PropertyId, owner: UserId, request: Option<RequestId>,
      agreedAt: Option<int>)

  datatype Market = Market(
    requests: map<RequestId, Request>, listings: map<PropertyId, Listing>,
    offers: seq<OwnerOffer>, tenantOffers: seq<TenantOffer>, connections: seq<Connection>)

  datatype Refusal = NotFound | Forbidden | Conflict | NoUnitLeft | OnlyDesignatedParty | RequestAlreadySettled

  /** The tables after a call, and why it was refused if it was. */
  datatype Outcome = Outcome(market: Market, refusal: Option<Refusal>)

  function Done(s: Market): Outcome { Outcome(s, None) }
  function Refused(s: Market, why: Refusal): Outcome { Outcome(s, Some(why)) }

  // ---- Owner offers ----

  predicate Offered(offers: seq<OwnerOffer>, owner: UserId, request: RequestId) {
    exists i | 0 <= i < |offers| :: offers[i].owner == owner && offers[i].request == request
  }

  /** One offer of an owner on a request, ever; it costs a unit of the owner's allowance. */
  function CreateOffer(s: Market, u: UserId, r: RequestId, p: PropertyId, unitLeft: bool): Outcome {
    if r !in s.requests || !s.requests[r].status.ApprovedRequest? then Refused(s, NotFound)
    else if p !in s.listings || s.listings[p].owner != u then Refused(s, NotFound)
    else if !s.listings[p].status.ApprovedListing? then Refused(s, Forbidden)
    else if Offered(s.offers, u, r) then Refused(s, Conflict)
    else if !unitLeft then Refused(s, NoUnitLeft)
    else Done(s.(offers := s.offers + [OwnerOffer(u, r, p, Sent)]))
  }

  /** The offer exists and is on a request of the tenant. */
  predicate OwnedOffer(s: Market, u: UserId, i: nat) {
    i < |s.offers| && s.offers[i].request in s.requests && s.requests[s.offers[i].request].tenant == u
  }

  function ViewOffer(s: Market, u: UserId, i: nat): Outcome {
    if !OwnedOffer(s, u, i) then Refused(s, NotFound)
    else if s.offers[i].status.Sent? then Done(s.(offers := s.offers[i := s.offers[i].(status := Viewed)]))
    else Done(s)
  }

  function AcceptOffer(s: Market, u: UserId, i: nat): Outcome {
    if !OwnedOffer(s, u, i) then Refused(s, NotFound)
    else
      var o := s.offers[i];
      if !o.Open() then Refused(s, Conflict)
      else if o.property !in s.listings || !s.listings[o.property].status.ApprovedListing? then Refused(s, Forbidden)
      else if !s.requests[o.request].status.ApprovedRequest? then Refused(s, Conflict)
      else
        Done(s.(offers := s.offers[i := o.(status := Accepted)],
                connections := s.connections + [Connection(u, o.property, o.owner, Some(o.request), None)]))
  }

  function RejectOffer(s: Market, u: UserId, i: nat): Outcome {
    if !OwnedOffer(s, u, i) then Refused(s, NotFound)
    else if !s.offers[i].Open() then Refused(s, Conflict)
    else Done(s.(offers := s.offers[i := s.offers[i].(status := Rejected)]))
  }

  // ---- Tenant offers ----

  predicate HasActive(offers: seq<TenantOffer>, tenant: UserId, p: PropertyId) {
    exists i | 0 <= i < |offers| :: offers[i].tenant == tenant && offers[i].property == p && offers[i].Active()
  }

  function CreateTenantOffer(s: Market, u: UserId, p: PropertyId, price: real): Outcome {
    if p !in s.listings then Refused(s, NotFound)
    else if !s.listings[p].status.ApprovedListing? || s.listings[p].owner == u then Refused(s, Forbidden)
    else if HasActive(s.tenantOffers, u, p) then Refused(s, Conflict)
    else Done(s.(tenantOffers := s.tenantOffers + [TenantOffer(u, p, s.listings[p].owner, price, None, Pending)]))
  }

  /** The place of the direct connection of a tenant and an owner over a property. */
  function DirectOf(cs: seq<Connection>, o: TenantOffer): (i: Option<nat>)
    ensures i.Some? ==> i.value < |cs| && IsDirect(cs[i.value], o)
    ensures i.None? ==> forall j | 0 <= j < |cs| :: !IsDirect(cs[j], o)
  {
    if cs == [] then None
    else if IsDirect(cs[|cs| - 1], o) then Some(|cs| - 1)
    else DirectOf(cs[..|cs| - 1], o)
  }

  predicate IsDirect(c: Connection, o: TenantOffer) {
    c.tenant == o.tenant && c.property == o.property && c.owner == o.owner && c.request.None?
  }

  /** An accepted offer leads to the direct connection, a new one only if there is none. */
  function SettleAsMatch(s: Market, i: nat): Outcome
    requires i < |s.tenantOffers|
  {
    var o := s.tenantOffers[i];
    if o.property !in s.listings || !s.listings[o.property].status.ApprovedListing? then Refused(s, Forbidden)
    else if !o.Active() then Refused(s, Conflict)
    else
      var claimed := s.(tenantOffers := s.tenantOffers[i := o.(status := TenantAccepted)]);
      if DirectOf(s.connections, o).Some? then Done(claimed)
      else Done(claimed.(connections := s.connections + [Connection(o.tenant, o.property, o.owner, None, None)]))
  }

  function LandlordAccept(s: Market, u: UserId, i: nat): Outcome {
    if i >= |s.tenantOffers| || s.tenantOffers[i].owner != u then Refused(s, NotFound)
    else if !s.tenantOffers[i].status.Pending? then Refused(s, Conflict)
    else SettleAsMatch(s, i)
  }

  function TenantAccept(s: Market, u: UserId, i: nat): Outcome {
    if i >= |s.tenantOffers| || s.tenantOffers[i].tenant != u then Refused(s, NotFound)
    else if !s.tenantOffers[i].status.Countered? then Refused(s, Conflict)
    else SettleAsMatch(s, i)
  }

  function LandlordCounter(s: Market, u: UserId, i: nat, price: real): Outcome {
    if i >= |s.tenantOffers| || s.tenantOffers[i].owner != u then Refused(s, NotFound)
    else if !s.tenantOffers[i].status.Pending? then Refused(s, Conflict)
    else Done(s.(tenantOffers := s.tenantOffers[i := s.tenantOffers[i].(status := Countered, counter := Some(price))]))
  }

  /** `landlordDecline` and `tenantWithdraw`. */
  function EndTenantOffer(s: Market, i: nat, mine: bool, status: TenantOfferStatus): Outcome {
    if i >= |s.tenantOffers| || !mine then Refused(s, NotFound)
    else if !s.tenantOffers[i].Active() then Refused(s, Conflict)
    else Done(s.(tenantOffers := s.tenantOffers[i := s.tenantOffers[i].(status := status)]))
  }

  function LandlordDecline(s: Market, u: UserId, i: nat): Outcome {
    EndTenantOffer(s, i, i < |s.tenantOffers| && s.tenantOffers[i].owner == u, Declined)
  }

  function TenantWithdraw(s: Market, u: UserId, i: nat): Outcome {
    EndTenantOffer(s, i, i < |s.tenantOffers| && s.tenantOffers[i].tenant == u, Withdrawn)
  }

  // ---- Agreement ----

  /** Every open offer on the request or on the property is rejected. */
  function RejectedOn(offers: seq<OwnerOffer>, r: Option<RequestId>, p: PropertyId): (after: seq<OwnerOffer>)
    ensures |after| == |offers|
    ensures forall i | 0 <= i < |offers| ::
              after[i] == if offers[i].Open() && (r == Some(offers[i].request) || offers[i].property == p)
                          then offers[i].(status := Rejected) else offers[i]
  {
    seq(|offers|, i requires 0 <= i < |offers| =>
      if offers[i].Open() && (r == Some(offers[i].request) || offers[i].property == p)
      then offers[i].(status := Rejected) else offers[i])
  }

  function DeclinedOn(offers: seq<TenantOffer>, p: PropertyId): (after: seq<TenantOffer>)
    ensures |after| == |offers|
    ensures forall i | 0 <= i < |offers| ::
              after[i] == if offers[i].Active() && offers[i].property == p then offers[i].(status := Declined)
                else offers[i]
  {
    seq(|offers|, i requires 0 <= i < |offers| =>
      if offers[i].Active() && offers[i].property == p then offers[i].(status := Declined) else offers[i])
  }

  function Archived(listings: map<PropertyId, Listing>, p: PropertyId): map<PropertyId, Listing> {
    if p in listings then listings[p := listings[p].(status := ArchivedListing)] else listings
  }

  function Agreed(s: Market, k: nat, now: int): Market
    requires k < |s.connections|
  {
    var c := s.connections[k];
    Market(
      if c.request.Some? && c.request.value in s.requests
      then s.requests[c.request.value := s.requests[c.request.value].(status := Fulfilled)] else s.requests,
      Archived(s.listings, c.property),
      RejectedOn(s.offers, c.request, c.property), DeclinedOn(s.tenantOffers, c.property),
      s.connections[k := c.(agreedAt := Some(now))])
  }

  /** No request stands behind the connection, or one that is still approved. */
  predicate RequestOpen(s: Market, c: Connection) {
    c.request.Some? ==>
      && c.request.value in s.requests && s.requests[c.request.value].tenant == c.tenant
      && s.requests[c.request.value].status.ApprovedRequest?
  }

  /**
   The tenant of a request, or the owner where there is none, confirms;
   the transaction fails as a whole if the request is settled.
   */
  function ConfirmAgreement(s: Market, u: UserId, k: nat, now: int): Outcome {
    if k >= |s.connections| || (s.connections[k].tenant != u && s.connections[k].owner != u) then Refused(s, NotFound)
    else
      var c := s.connections[k];
      if u != (if c.request.Some? then c.tenant else c.owner) then Refused(s, OnlyDesignatedParty)
      else if c.agreedAt.Some? then Done(s)
      else if !RequestOpen(s, c) then Refused(s, RequestAlreadySettled)
      else Done(Agreed(s, k, now))
  }

  // ---- The other services that write requests and listings ----

  function ReviewRequest(s: Market, r: RequestId, approve: bool): Outcome {
    if r !in s.requests then Refused(s, NotFound)
    else if !s.requests[r].status.PendingRequest? then Refused(s, Conflict)
    else Done(s.(requests := s.requests[r :=
      s.requests[r].(status := if approve then ApprovedRequest else RejectedRequest)]))
  }

  function CloseRequest(s: Market, u: UserId, r: RequestId): Outcome {
    if r !in s.requests || s.requests[r].tenant != u then Refused(s, NotFound)
    else Done(s.(requests := s.requests[r := s.requests[r].(status := Closed)]))
  }

  /** Deleting an account archives its requests and its listings. */
  function DeleteAccount(s: Market, u: UserId): Market {
    s.(requests := map r | r in s.requests ::
                     if s.requests[r].tenant == u then s.requests[r].(status := ArchivedRequest) else s.requests[r],
       listings := map p | p in s.listings ::
                     if s.listings[p].owner == u then s.listings[p].(status := ArchivedListing) else s.listings[p])
  }

  datatype Call =
    | PostRequest(request: RequestId)
    | Review(reviewed: RequestId, approve: bool)
    | Close(closed: RequestId)
    | Delete
    | PostListing(listing: PropertyId)
    | SetListing(changed: PropertyId, status: ListingStatus)
    | Offer(on: RequestId, property: PropertyId, unitLeft: bool)
    | View(viewed: nat)
    | Accept(accepted: nat)
    | Reject(rejected: nat)
    | OfferRent(rented: PropertyId, price: real)
    | LandlordAccepts(la: nat)
    | LandlordDeclines(ld: nat)
    | LandlordCounters(lc: nat, counter: real)
    | TenantAccepts(ta: nat)
    | TenantWithdraws(tw: nat)
    | Confirm(connection: nat, at: int)

  /**
   Listings come in and change status as moderation, their owners
   and the capacity job decide; here any change may happen.
   */
  function Do(s: Market, u: UserId, call: Call): Outcome {
    match call
    case PostRequest(r) => if r in s.requests then Refused(s, Conflict)
      else Done(s.(requests := s.requests[r := Request(u, PendingRequest)]))
    case Review(r, approve) => ReviewRequest(s, r, approve)
    case Close(r) => CloseRequest(s, u, r)
    case Delete => Done(DeleteAccount(s, u))
    case PostListing(p) => if p in s.listings then Refused(s, Conflict)
      else Done(s.(listings := s.listings[p := Listing(u, PendingListing)]))
    case SetListing(p, status) =>
      if p !in s.listings then Refused(s, NotFound)
      else Done(s.(listings := s.listings[p := s.listings[p].(status := status)]))
    case Offer(r, p, unitLeft) => CreateOffer(s, u, r, p, unitLeft)
    case View(i) => ViewOffer(s, u, i)
    case Accept(i) => AcceptOffer(s, u, i)
    case Reject(i) => RejectOffer(s, u, i)
    case OfferRent(p, price) => CreateTenantOffer(s, u, p, price)
    case LandlordAccepts(i) => LandlordAccept(s, u, i)
    case LandlordDeclines(i) => LandlordDecline(s, u, i)
    case LandlordCounters(i, price) => LandlordCounter(s, u, i, price)
    case TenantAccepts(i) => TenantAccept(s, u, i)
    case TenantWithdraws(i) => TenantWithdraw(s, u, i)
    case Confirm(k, now) => ConfirmAgreement(s, u, k, now)
  }

  datatype Turn = Turn(user: UserId, call: Call)

  function Run(s: Market, turns: seq<Turn>): Market
    decreases |turns|
  {
    if turns == [] then s else Run(Do(s, turns[0].user, turns[0].call).market, turns[1..])
  }

  const EMPTY := Market(map[], map[], [], [], [])

  // ---- What every reachable market satisfies ----

  /** Every row points to a request or a listing that is there, with the people it names. */
  ghost predicate Referenced(s: Market) {
    && (forall i | 0 <= i < |s.offers| :: s.offers[i].request in s.requests)
    && (forall i | 0 <= i < |s.tenantOffers| ::
          s.tenantOffers[i].property in s.listings
            && s.listings[s.tenantOffers[i].property].owner == s.tenantOffers[i].owner)
    && (forall k | 0 <= k < |s.connections| && s.connections[k].request.None? ::
          s.connections[k].property in s.listings
            && s.listings[s.connections[k].property].owner == s.connections[k].owner)
  }

  ghost predicate OneOfferEach(offers: seq<OwnerOffer>) {
    forall i, j | 0 <= i < j < |offers| :: offers[i].owner != offers[j].owner || offers[i].request != offers[j].request
  }

  /** At most one connection of an owner through a request. */
  ghost predicate OneConnectionEach(cs: seq<Connection>) {
    forall k, l | 0 <= k < l < |cs| && cs[k].request.Some? && cs[k].request == cs[l].request ::
      cs[k].owner != cs[l].owner
  }

  /** The connection an accepted offer leads to. */
  ghost predicate Joins(o: OwnerOffer, c: Connection, requests: map<RequestId, Request>) {
    && o.status.Accepted? && c.request == Some(o.request) && c.owner == o.owner && c.property == o.property
    && o.request in requests && requests[o.request].tenant == c.tenant
  }

  ghost predicate Leads(o: OwnerOffer, cs: seq<Connection>, requests: map<RequestId, Request>) {
    exists k :: 0 <= k < |cs| && Joins(o, cs[k], requests)
  }

  ghost predicate Stems(c: Connection, offers: seq<OwnerOffer>, requests: map<RequestId, Request>) {
    exists i :: 0 <= i < |offers| && Joins(offers[i], c, requests)
  }

  ghost predicate AcceptedLead(offers: seq<OwnerOffer>, cs: seq<Connection>, requests: map<RequestId, Request>) {
    forall i | 0 <= i < |offers| && offers[i].status.Accepted? :: Leads(offers[i], cs, requests)
  }

  ghost predicate ConnectionsStem(offers: seq<OwnerOffer>, cs: seq<Connection>, requests: map<RequestId, Request>) {
    forall k | 0 <= k < |cs| && cs[k].request.Some? :: Stems(cs[k], offers, requests)
  }

  /**
   Every accepted offer leads to a connection, and every
   connection through a request stems from an accepted offer.
   */
  ghost predicate Linked(s: Market) {
    AcceptedLead(s.offers, s.connections, s.requests) && ConnectionsStem(s.offers, s.connections, s.requests)
  }

  predicate Settled(status: RequestStatus) {
    status.Fulfilled? || status.Closed? || status.ArchivedRequest?
  }

  /** Agreements: one at most through a request, and the request is then settled. */
  ghost predicate Agreements(s: Market) {
    && (forall k | 0 <= k < |s.connections| && s.connections[k].agreedAt.Some? && s.connections[k].request.Some? ::
          s.connections[k].request.value in s.requests && Settled(s.requests[s.connections[k].request.value].status))
    && (forall k, l | 0 <= k < l < |s.connections| && s.connections[k].request.Some?
                      && s.connections[k].request == s.connections[l].request ::
          s.connections[k].agreedAt.None? || s.connections[l].agreedAt.None?)
  }

  ghost predicate FulfilledIsClear(s: Market) {
    forall i | 0 <= i < |s.offers| && s.offers[i].request in s.requests
      && s.requests[s.offers[i].request].status.Fulfilled? ::
      !s.offers[i].Open()
  }

  ghost predicate OneActiveOffer(offers: seq<TenantOffer>) {
    forall i, j | 0 <= i < j < |offers| && offers[i].tenant == offers[j].tenant
      && offers[i].property == offers[j].property ::
      !offers[i].Active() || !offers[j].Active()
  }

  ghost predicate OneDirectConnection(cs: seq<Connection>) {
    forall k, l | 0 <= k < l < |cs| && cs[k].request.None? && cs[l].request.None? ::
      cs[k].tenant != cs[l].tenant || cs[k].property != cs[l].property
  }

  ghost predicate MarketInv(s: Market) {
    && Referenced(s) && OneOfferEach(s.offers) && OneConnectionEach(s.connections) && Linked(s)
    && Agreements(s) && FulfilledIsClear(s) && OneActiveOffer(s.tenantOffers) && OneDirectConnection(s.connections)
  }

  // ---- Calls that change no connection ----

  ghost predicate RequestsFollow(before: map<RequestId, Request>, after: map<RequestId, Request>) {
    forall r | r in before ::
      && r in after && after[r].tenant == before[r].tenant
      && (Settled(before[r].status) ==> Settled(after[r].status))
  }

  ghost predicate ListingsFollow(before: map<PropertyId, Listing>, after: map<PropertyId, Listing>) {
    forall p | p in before :: p in after && after[p].owner == before[p].owner
  }

  /** The same offers, none of them opened again, and accepted if and only if they were. */
  ghost predicate OffersFollow(before: seq<OwnerOffer>, after: seq<OwnerOffer>) {
    && |after| == |before|
    && forall i | 0 <= i < |before| ::
         && after[i].(status := Sent) == before[i].(status := Sent)
         && (after[i].status.Accepted? <==> before[i].status.Accepted?)
         && (after[i].Open() ==> before[i].Open())
  }

  ghost predicate TenantOffersFollow(before: seq<TenantOffer>, after: seq<TenantOffer>) {
    && |after| == |before|
    && forall i | 0 <= i < |before| ::
         && after[i].tenant == before[i].tenant && after[i].property == before[i].property
            && after[i].owner == before[i].owner
         && (after[i].Active() ==> before[i].Active())
  }

  ghost predicate Follows(s: Market, t: Market) {
    && RequestsFollow(s.requests, t.requests) && ListingsFollow(s.listings, t.listings)
    && OffersFollow(s.offers, t.offers) && TenantOffersFollow(s.tenantOffers, t.tenantOffers)
  }

  /** The connections but for the moments of their agreements. */
  ghost predicate SameConnections(before: seq<Connection>, after: seq<Connection>) {
    |after| == |before| && forall k | 0 <= k < |before| :: after[k].(agreedAt := None) == before[k].(agreedAt := None)
  }

  lemma {:induction false} LinkedFollows(s: Market, t: Market)
    requires Linked(s) && Follows(s, t) && SameConnections(s.connections, t.connections)
    ensures Linked(t)
  {
    forall i | 0 <= i < |t.offers| && t.offers[i].status.Accepted?
      ensures Leads(t.offers[i], t.connections, t.requests)
    {
      assert Leads(s.offers[i], s.connections, s.requests);
      var k :| 0 <= k < |s.connections| && Joins(s.offers[i], s.connections[k], s.requests);
      JoinsFollows(s, t, i, k);
    }
    forall k | 0 <= k < |t.connections| && t.connections[k].request.Some?
      ensures Stems(t.connections[k], t.offers, t.requests)
    {
      assert t.connections[k].(agreedAt := None) == s.connections[k].(agreedAt := None);
      assert Stems(s.connections[k], s.offers, s.requests);
      var i :| 0 <= i < |s.offers| && Joins(s.offers[i], s.connections[k], s.requests);
      JoinsFollows(s, t, i, k);
    }
  }

  lemma {:induction false} JoinsFollows(s: Market, t: Market, i: nat, k: nat)
    requires Follows(s, t) && SameConnections(s.connections, t.connections)
    requires i < |s.offers| && k < |s.connections| && Joins(s.offers[i], s.connections[k], s.requests)
    ensures Joins(t.offers[i], t.connections[k], t.requests)
  {
    assert t.connections[k].(agreedAt := None) == s.connections[k].(agreedAt := None);
    assert t.offers[i].(status := Sent) == s.offers[i].(status := Sent);
  }

  lemma {:induction false} TablesFollow(s: Market, t: Market)
    requires Referenced(s) && OneOfferEach(s.offers) && OneActiveOffer(s.tenantOffers)
    requires Follows(s, t) && SameConnections(s.connections, t.connections)
    ensures Referenced(t) && OneOfferEach(t.offers) && OneActiveOffer(t.tenantOffers)
  {
    assert forall i | 0 <= i < |t.offers| ::
           t.offers[i].owner == s.offers[i].owner && t.offers[i].request == s.offers[i].request by {
      forall i | 0 <= i < |t.offers|
        ensures t.offers[i].owner == s.offers[i].owner && t.offers[i].request == s.offers[i].request
      {
        assert t.offers[i].(status := Sent) == s.offers[i].(status := Sent);
      }
    }
    ConnectionKeys(s.connections, t.connections);
  }

  lemma {:induction false} ConnectionKeys(before: seq<Connection>, after: seq<Connection>)
    requires SameConnections(before, after)
    ensures forall k | 0 <= k < |before| ::
              && after[k].tenant == before[k].tenant && after[k].property == before[k].property
              && after[k].owner == before[k].owner && after[k].request == before[k].request
  {
    forall k | 0 <= k < |before|
      ensures after[k].tenant == before[k].tenant && after[k].property == before[k].property
              && after[k].owner == before[k].owner && after[k].request == before[k].request
    {
      assert after[k].(agreedAt := None) == before[k].(agreedAt := None);
    }
  }

  lemma {:induction false} ConnectionsFollow(before: seq<Connection>, after: seq<Connection>)
    requires OneConnectionEach(before) && OneDirectConnection(before) && SameConnections(before, after)
    ensures OneConnectionEach(after) && OneDirectConnection(after)
  {
    ConnectionKeys(before, after);
  }

  /** No request comes to be fulfilled. */
  ghost predicate NoneFulfilled(before: map<RequestId, Request>, after: map<RequestId, Request>) {
    forall r | r in after && after[r].status.Fulfilled? :: r in before && before[r].status.Fulfilled?
  }

  lemma {:induction false} ClearFollows(s: Market, t: Market)
    requires FulfilledIsClear(s) && Follows(s, t) && NoneFulfilled(s.requests, t.requests)
    ensures FulfilledIsClear(t)
  {
    forall i | 0 <= i < |t.offers| && t.offers[i].request in t.requests
      && t.requests[t.offers[i].request].status.Fulfilled?
      ensures !t.offers[i].Open()
    {
      assert t.offers[i].(status := Sent) == s.offers[i].(status := Sent);
    }
  }

  lemma {:induction false} AgreementsFollow(s: Market, t: Market)
    requires Agreements(s) && RequestsFollow(s.requests, t.requests) && t.connections == s.connections
    ensures Agreements(t)
  {
  }

  lemma {:induction false} FollowingKeepsInv(s: Market, t: Market)
    requires MarketInv(s) && Follows(s, t) && NoneFulfilled(s.requests, t.requests) && t.connections == s.connections
    ensures MarketInv(t)
  {
    assert SameConnections(s.connections, t.connections);
    LinkedFollows(s, t);
    TablesFollow(s, t);
    ClearFollows(s, t);
    AgreementsFollow(s, t);
  }

  // ---- Calls that add a row ----

  lemma {:induction false} LeadsMore(o: OwnerOffer, cs: seq<Connection>, c: Connection,
      requests: map<RequestId, Request>)
    requires Leads(o, cs, requests) || Joins(o, c, requests)
    ensures Leads(o, cs + [c], requests)
  {
    if Joins(o, c, requests) {
      assert (cs + [c])[|cs|] == c;
    } else {
      var k :| 0 <= k < |cs| && Joins(o, cs[k], requests);
      assert (cs + [c])[k] == cs[k];
    }
  }

  /** A connection stems from the same offer when other offers come in, or an open one changes. */
  lemma {:induction false} StemsStill(c: Connection, offers: seq<OwnerOffer>, after: seq<OwnerOffer>,
      requests: map<RequestId, Request>)
    requires Stems(c, offers, requests) && |offers| <= |after|
    requires forall i | 0 <= i < |offers| && offers[i].status.Accepted? :: after[i] == offers[i]
    ensures Stems(c, after, requests)
  {
    var i :| 0 <= i < |offers| && Joins(offers[i], c, requests);
    assert after[i] == offers[i];
  }

  lemma {:induction false} OfferKeepsInv(s: Market, u: UserId, r: RequestId, p: PropertyId, unitLeft: bool)
    requires MarketInv(s)
    ensures MarketInv(CreateOffer(s, u, r, p, unitLeft).market)
  {
    var t := CreateOffer(s, u, r, p, unitLeft).market;
    if t != s {
      assert forall i | 0 <= i < |s.offers| :: t.offers[i] == s.offers[i];
      forall k | 0 <= k < |s.connections| && s.connections[k].request.Some?
        ensures Stems(t.connections[k], t.offers, t.requests)
      {
        StemsStill(s.connections[k], s.offers, t.offers, s.requests);
      }
      assert Agreements(t);
    }
  }

  lemma {:induction false} OfferRentKeepsInv(s: Market, u: UserId, p: PropertyId, price: real)
    requires MarketInv(s)
    ensures MarketInv(CreateTenantOffer(s, u, p, price).market)
  {
    var t := CreateTenantOffer(s, u, p, price).market;
    if t != s {
      assert t == s.(tenantOffers := t.tenantOffers);
      assert Linked(t) && Agreements(t) && FulfilledIsClear(t);
      forall i, j | 0 <= i < j < |t.tenantOffers| && t.tenantOffers[i].tenant == t.tenantOffers[j].tenant
                    && t.tenantOffers[i].property == t.tenantOffers[j].property
        ensures !t.tenantOffers[i].Active() || !t.tenantOffers[j].Active()
      {
        assert t.tenantOffers[i] == s.tenantOffers[i];
      }
    }
  }

  lemma {:induction false} AcceptLinks(s: Market, t: Market, i: nat, u: UserId)
    requires Linked(s) && i < |s.offers| && s.offers[i].Open()
    requires s.offers[i].request in s.requests && s.requests[s.offers[i].request].tenant == u
    requires t.requests == s.requests && t.offers == s.offers[i := s.offers[i].(status := Accepted)]
    requires t.connections == s.connections
             + [Connection(u, s.offers[i].property, s.offers[i].owner, Some(s.offers[i].request), None)]
    ensures Linked(t)
  {
    var c := t.connections[|s.connections|];
    assert Joins(t.offers[i], c, t.requests);
    forall j | 0 <= j < |t.offers| && t.offers[j].status.Accepted?
      ensures Leads(t.offers[j], t.connections, t.requests)
    {
      LeadsMore(t.offers[j], s.connections, c, s.requests);
    }
    forall k | 0 <= k < |t.connections| && t.connections[k].request.Some?
      ensures Stems(t.connections[k], t.offers, t.requests)
    {
      if k < |s.connections| {
        StemsStill(s.connections[k], s.offers, t.offers, s.requests);
      }
    }
  }

  /** The owner of an offer that is still open has no connection through its request yet. */
  lemma {:induction false} OpenHasNoConnection(s: Market, i: nat, k: nat)
    requires OneOfferEach(s.offers) && Linked(s) && i < |s.offers| && s.offers[i].Open() && k < |s.connections|
    ensures s.connections[k].request != Some(s.offers[i].request) || s.connections[k].owner != s.offers[i].owner
  {
    if s.connections[k].request.Some? {
      assert Stems(s.connections[k], s.offers, s.requests);
      var j :| 0 <= j < |s.offers| && Joins(s.offers[j], s.connections[k], s.requests);
      assert j != i;
    }
  }

  lemma {:induction false} NewConnectionIsOne(cs: seq<Connection>, c: Connection)
    requires OneConnectionEach(cs) && OneDirectConnection(cs) && c.request.Some?
    requires forall k | 0 <= k < |cs| :: cs[k].request != c.request || cs[k].owner != c.owner
    ensures OneConnectionEach(cs + [c]) && OneDirectConnection(cs + [c])
  {
    var after := cs + [c];
    assert forall k | 0 <= k < |cs| :: after[k] == cs[k];
  }

  lemma {:induction false} NewConnectionIsOpen(s: Market, t: Market, c: Connection)
    requires Agreements(s) && t.requests == s.requests && t.connections == s.connections + [c] && c.agreedAt.None?
    requires c.request.Some? ==> c.request.value in s.requests && !Settled(s.requests[c.request.value].status)
    ensures Agreements(t)
  {
    assert forall k | 0 <= k < |s.connections| :: t.connections[k] == s.connections[k];
  }

  lemma {:induction false} AcceptKeepsInv(s: Market, u: UserId, i: nat)
    requires MarketInv(s)
    ensures MarketInv(AcceptOffer(s, u, i).market)
  {
    var t := AcceptOffer(s, u, i).market;
    if AcceptOffer(s, u, i).refusal.None? {
      var o := s.offers[i];
      var c := Connection(u, o.property, o.owner, Some(o.request), None);
      AcceptLinks(s, t, i, u);
      forall k | 0 <= k < |s.connections|
        ensures s.connections[k].request != c.request || s.connections[k].owner != c.owner
      {
        OpenHasNoConnection(s, i, k);
      }
      NewConnectionIsOne(s.connections, c);
      NewConnectionIsOpen(s, t, c);
      AcceptKeepsTables(s, t, i);
    }
  }

  lemma {:induction false} AcceptKeepsTables(s: Market, t: Market, i: nat)
    requires Referenced(s) && OneOfferEach(s.offers) && FulfilledIsClear(s) && i < |s.offers|
    requires t == s.(offers := s.offers[i := s.offers[i].(status := Accepted)], connections := t.connections)
    requires |t.connections| == |s.connections| + 1 && t.connections[..|s.connections|] == s.connections
    requires t.connections[|s.connections|].request.Some?
    ensures Referenced(t) && OneOfferEach(t.offers) && FulfilledIsClear(t)
  {
    assert forall k | 0 <= k < |s.connections| :: t.connections[k] == s.connections[k];
  }

  lemma {:induction false} SettleKeepsInv(s: Market, i: nat)
    requires MarketInv(s) && i < |s.tenantOffers|
    ensures MarketInv(SettleAsMatch(s, i).market)
  {
    var t := SettleAsMatch(s, i).market;
    if SettleAsMatch(s, i).refusal.None? {
      var o := s.tenantOffers[i];
      var claimed := s.(tenantOffers := s.tenantOffers[i := o.(status := TenantAccepted)]);
      FollowingKeepsInv(s, claimed);
      if DirectOf(s.connections, o).None? {
        DirectAdded(claimed, t, o);
      }
    }
  }

  lemma {:induction false} DirectAdded(s: Market, t: Market, o: TenantOffer)
    requires MarketInv(s) && DirectOf(s.connections, o).None?
    requires o.property in s.listings && s.listings[o.property].owner == o.owner
    requires t == s.(connections := s.connections + [Connection(o.tenant, o.property, o.owner, None, None)])
    ensures MarketInv(t)
  {
    var c := Connection(o.tenant, o.property, o.owner, None, None);
    forall i | 0 <= i < |t.offers| && t.offers[i].status.Accepted?
      ensures Leads(t.offers[i], t.connections, t.requests)
    {
      LeadsMore(t.offers[i], s.connections, c, s.requests);
    }
    DirectIsNew(s, o);
    NewDirectIsOne(s.connections, c);
    NewConnectionIsOpen(s, t, c);
    assert forall k | 0 <= k < |s.connections| :: t.connections[k] == s.connections[k];
  }

  lemma {:induction false} NewDirectIsOne(cs: seq<Connection>, c: Connection)
    requires OneConnectionEach(cs) && OneDirectConnection(cs) && c.request.None?
    requires forall k | 0 <= k < |cs| && cs[k].request.None? :: cs[k].tenant != c.tenant || cs[k].property != c.property
    ensures OneConnectionEach(cs + [c]) && OneDirectConnection(cs + [c])
  {
    var after := cs + [c];
    assert forall k | 0 <= k < |cs| :: after[k] == cs[k];
  }

  lemma {:induction false} DirectIsNew(s: Market, o: TenantOffer)
    requires Referenced(s) && DirectOf(s.connections, o).None?
    requires o.property in s.listings && s.listings[o.property].owner == o.owner
    ensures forall k | 0 <= k < |s.connections| && s.connections[k].request.None? ::
              s.connections[k].tenant != o.tenant || s.connections[k].property != o.property
  {
    forall k | 0 <= k < |s.connections| && s.connections[k].request.None?
      ensures s.connections[k].tenant != o.tenant || s.connections[k].property != o.property
    {
      assert !IsDirect(s.connections[k], o);
    }
  }

  // ---- Agreement ----

  lemma {:induction false} AgreedFollows(s: Market, k: nat, now: int)
    requires k < |s.connections|
    requires s.connections[k].request.Some? ==>
               s.connections[k].request.value in s.requests
                 && s.requests[s.connections[k].request.value].status.ApprovedRequest?
    ensures Follows(s, Agreed(s, k, now)) && SameConnections(s.connections, Agreed(s, k, now).connections)
  {
  }

  lemma {:induction false} AgreedIsClear(s: Market, k: nat, now: int)
    requires k < |s.connections| && FulfilledIsClear(s)
    ensures FulfilledIsClear(Agreed(s, k, now))
  {
  }

  lemma {:induction false} AgreedOnce(s: Market, k: nat, now: int)
    requires k < |s.connections| && Agreements(s)
    requires s.connections[k].request.Some? ==>
               s.connections[k].request.value in s.requests
                 && s.requests[s.connections[k].request.value].status.ApprovedRequest?
    ensures Agreements(Agreed(s, k, now))
  {
    var t := Agreed(s, k, now);
    assert forall l | 0 <= l < |s.connections| && l != k :: t.connections[l] == s.connections[l];
  }

  lemma {:induction false} ConfirmKeepsInv(s: Market, u: UserId, k: nat, now: int)
    requires MarketInv(s)
    ensures MarketInv(ConfirmAgreement(s, u, k, now).market)
  {
    var t := ConfirmAgreement(s, u, k, now).market;
    if t != s {
      AgreedFollows(s, k, now);
      LinkedFollows(s, t);
      TablesFollow(s, t);
      ConnectionsFollow(s.connections, t.connections);
      AgreedIsClear(s, k, now);
      AgreedOnce(s, k, now);
    }
  }

  // ---- Runs ----

  predicate Adds(call: Call) {
    call.Offer? || call.Accept? || call.OfferRent? || call.LandlordAccepts? || call.TenantAccepts? || call.Confirm?
  }

  ghost predicate Quiet(s: Market, t: Market) {
    Follows(s, t) && NoneFulfilled(s.requests, t.requests) && t.connections == s.connections
  }

  lemma {:induction false} RequestCallsFollow(s: Market, u: UserId, call: Call)
    requires call.PostRequest? || call.Review? || call.Close? || call.Delete?
    ensures Quiet(s, Do(s, u, call).market)
  {
  }

  lemma {:induction false} OtherCallsFollow(s: Market, u: UserId, call: Call)
    requires !Adds(call) && !(call.PostRequest? || call.Review? || call.Close? || call.Delete?)
    ensures Quiet(s, Do(s, u, call).market)
  {
    var t := Do(s, u, call).market;
    match call
    case View(i) => OfferChanged(s, t, i);
    case Reject(i) => OfferChanged(s, t, i);
    case PostListing(p) =>
    case SetListing(p, status) =>
    case LandlordDeclines(i) => TenantOfferChanged(s, t, i);
    case LandlordCounters(i, price) => TenantOfferChanged(s, t, i);
    case TenantWithdraws(i) => TenantOfferChanged(s, t, i);
  }

  lemma {:induction false} OfferChanged(s: Market, t: Market, i: nat)
    requires t == s || (i < |s.offers| && s.offers[i].Open() && exists status ::
               status != Accepted && t == s.(offers := s.offers[i := s.offers[i].(status := status)]))
    ensures Quiet(s, t)
  {
  }

  lemma {:induction false} TenantOfferChanged(s: Market, t: Market, i: nat)
    requires t == s || (i < |s.tenantOffers| && s.tenantOffers[i].Active() && exists status, counter ::
               t == s.(tenantOffers := s.tenantOffers[i := s.tenantOffers[i].(status := status, counter := counter)]))
    ensures Quiet(s, t)
  {
  }

  lemma {:induction false} RentCallKeepsInv(s: Market, u: UserId, call: Call)
    requires MarketInv(s) && (call.OfferRent? || call.LandlordAccepts? || call.TenantAccepts?)
    ensures MarketInv(Do(s, u, call).market)
  {
    match call
    case OfferRent(p, price) => OfferRentKeepsInv(s, u, p, price);
    case LandlordAccepts(i) => if i < |s.tenantOffers| { SettleKeepsInv(s, i); }
    case TenantAccepts(i) => if i < |s.tenantOffers| { SettleKeepsInv(s, i); }
  }

  lemma {:induction false} AddingCallKeepsInv(s: Market, u: UserId, call: Call)
    requires MarketInv(s) && Adds(call)
    ensures MarketInv(Do(s, u, call).market)
  {
    match call
    case Offer(r, p, unitLeft) => OfferKeepsInv(s, u, r, p, unitLeft);
    case Accept(i) => AcceptKeepsInv(s, u, i);
    case Confirm(k, now) => ConfirmKeepsInv(s, u, k, now);
    case _ => RentCallKeepsInv(s, u, call);
  }

  lemma {:induction false} CallKeepsInv(s: Market, u: UserId, call: Call)
    requires MarketInv(s)
    ensures MarketInv(Do(s, u, call).market)
  {
    if Adds(call) {
      AddingCallKeepsInv(s, u, call);
    } else {
      if call.PostRequest? || call.Review? || call.Close? || call.Delete? {
        RequestCallsFollow(s, u, call);
      } else {
        OtherCallsFollow(s, u, call);
      }
      FollowingKeepsInv(s, Do(s, u, call).market);
    }
  }

  /** Every market that calls can lead to, from one that satisfies the invariant, satisfies it. */
  lemma {:induction false} RunsKeepInv(s: Market, turns: seq<Turn>)
    requires MarketInv(s)
    ensures MarketInv(Run(s, turns))
    decreases |turns|
  {
    if turns != [] {
      CallKeepsInv(s, turns[0].user, turns[0].call);
      RunsKeepInv(Do(s, turns[0].user, turns[0].call).market, turns[1..]);
    }
  }

  // ---- What follows ----

  lemma {:induction false} EmptyMarketSatisfiesInv()
    ensures MarketInv(EMPTY)
  {
  }

  function AcceptedOn(offers: seq<OwnerOffer>, r: RequestId): nat {
    if offers == [] then 0
    else AcceptedOn(offers[..|offers| - 1], r) + (if IsAcceptedOn(offers[|offers| - 1], r) then 1 else 0)
  }

  function ConnectedThrough(cs: seq<Connection>, r: RequestId): nat {
    if cs == [] then 0
    else ConnectedThrough(cs[..|cs| - 1], r) + (if cs[|cs| - 1].request == Some(r) then 1 else 0)
  }

  predicate IsAcceptedOn(o: OwnerOffer, r: RequestId) { o.status.Accepted? && o.request == r }

  function AcceptedOwners(offers: seq<OwnerOffer>, r: RequestId): set<UserId> {
    set i | 0 <= i < |offers| && IsAcceptedOn(offers[i], r) :: offers[i].owner
  }

  function ConnectedOwners(cs: seq<Connection>, r: RequestId): set<UserId> {
    set k | 0 <= k < |cs| && cs[k].request == Some(r) :: cs[k].owner
  }

  lemma {:induction false} OneMoreAccepted(offers: seq<OwnerOffer>, o: OwnerOffer, r: RequestId)
    ensures AcceptedOwners(offers + [o], r)
            == AcceptedOwners(offers, r) + (if IsAcceptedOn(o, r) then {o.owner} else {})
  {
    var after := offers + [o];
    assert after[|offers|] == o && forall i | 0 <= i < |offers| :: after[i] == offers[i];
    forall u | u in AcceptedOwners(offers, r) ensures u in AcceptedOwners(after, r) {
      var i :| 0 <= i < |offers| && IsAcceptedOn(offers[i], r) && offers[i].owner == u;
      assert IsAcceptedOn(after[i], r);
    }
  }

  lemma {:induction false} OneMoreConnected(cs: seq<Connection>, c: Connection, r: RequestId)
    ensures ConnectedOwners(cs + [c], r) == ConnectedOwners(cs, r) + (if c.request == Some(r) then {c.owner} else {})
  {
    var after := cs + [c];
    assert after[|cs|] == c && forall k | 0 <= k < |cs| :: after[k] == cs[k];
    forall u | u in ConnectedOwners(cs, r) ensures u in ConnectedOwners(after, r) {
      var k :| 0 <= k < |cs| && cs[k].request == Some(r) && cs[k].owner == u;
      assert after[k].request == Some(r);
    }
  }

  lemma {:induction false} CountAcceptedOwners(offers: seq<OwnerOffer>, r: RequestId)
    requires OneOfferEach(offers)
    ensures AcceptedOn(offers, r) == |AcceptedOwners(offers, r)|
    decreases |offers|
  {
    if offers != [] {
      var n := |offers| - 1;
      var rest, last := offers[..n], offers[n];
      assert offers == rest + [last];
      CountAcceptedOwners(rest, r);
      OneMoreAccepted(rest, last, r);
      if IsAcceptedOn(last, r) {
        assert forall i | 0 <= i < n :: offers[i].owner != offers[n].owner || offers[i].request != offers[n].request;
        assert last.owner !in AcceptedOwners(rest, r);
      }
    }
  }

  lemma {:induction false} CountConnectedOwners(cs: seq<Connection>, r: RequestId)
    requires OneConnectionEach(cs)
    ensures ConnectedThrough(cs, r) == |ConnectedOwners(cs, r)|
    decreases |cs|
  {
    if cs != [] {
      var n := |cs| - 1;
      var rest, last := cs[..n], cs[n];
      assert cs == rest + [last];
      CountConnectedOwners(rest, r);
      OneMoreConnected(rest, last, r);
      if last.request == Some(r) {
        assert forall k | 0 <= k < n && cs[k].request == Some(r) :: cs[k].owner != cs[n].owner;
        assert last.owner !in ConnectedOwners(rest, r);
      }
    }
  }

  lemma {:induction false} SameOwners(s: Market, r: RequestId)
    requires Linked(s)
    ensures AcceptedOwners(s.offers, r) == ConnectedOwners(s.connections, r)
  {
    forall u | u in AcceptedOwners(s.offers, r) ensures u in ConnectedOwners(s.connections, r) {
      var i :| 0 <= i < |s.offers| && IsAcceptedOn(s.offers[i], r) && s.offers[i].owner == u;
      assert Leads(s.offers[i], s.connections, s.requests);
      var k :| 0 <= k < |s.connections| && Joins(s.offers[i], s.connections[k], s.requests);
    }
    forall u | u in ConnectedOwners(s.connections, r) ensures u in AcceptedOwners(s.offers, r) {
      var k :| 0 <= k < |s.connections| && s.connections[k].request == Some(r) && s.connections[k].owner == u;
      assert Stems(s.connections[k], s.offers, s.requests);
      var i :| 0 <= i < |s.offers| && Joins(s.offers[i], s.connections[k], s.requests);
      assert IsAcceptedOn(s.offers[i], r);
    }
  }

  /**
   In every reachable market the accepted offers on a request
   and its connections correspond: the same owners, each once.
   */
  lemma {:induction false} AcceptedOffersAreConnections(turns: seq<Turn>, r: RequestId)
    ensures var s := Run(EMPTY, turns);
            && AcceptedOwners(s.offers, r) == ConnectedOwners(s.connections, r)
            && AcceptedOn(s.offers, r) == |AcceptedOwners(s.offers, r)|
            && ConnectedThrough(s.connections, r) == |ConnectedOwners(s.connections, r)|
  {
    EmptyMarketSatisfiesInv();
    RunsKeepInv(EMPTY, turns);
    var s := Run(EMPTY, turns);
    SameOwners(s, r);
    CountAcceptedOwners(s.offers, r);
    CountConnectedOwners(s.connections, r);
  }

  /** Once an agreement is reached through a request, it stands, and no other connection of the request reaches one. */
  lemma {:induction false} AgreementsStand(s: Market, turns: seq<Turn>, k: nat)
    requires MarketInv(s) && k < |s.connections| && s.connections[k].agreedAt.Some?
    ensures var t := Run(s, turns);
            && k < |t.connections| && t.connections[k] == s.connections[k]
            && forall l | 0 <= l < |t.connections| && l != k && s.connections[k].request.Some?
                          && t.connections[l].request == s.connections[k].request ::
                 t.connections[l].agreedAt.None?
    decreases |turns|
  {
    if turns == [] {
      forall l | 0 <= l < |s.connections| && l != k && s.connections[k].request.Some?
                 && s.connections[l].request == s.connections[k].request
        ensures s.connections[l].agreedAt.None?
      {
      }
    } else {
      var next := Do(s, turns[0].user, turns[0].call).market;
      ConnectionsLast(s, turns[0].user, turns[0].call, k);
      CallKeepsInv(s, turns[0].user, turns[0].call);
      AgreementsStand(next, turns[1..], k);
    }
  }

  lemma {:induction false} ConnectionsLast(s: Market, u: UserId, call: Call, k: nat)
    requires k < |s.connections| && s.connections[k].agreedAt.Some?
    ensures k < |Do(s, u, call).market.connections| && Do(s, u, call).market.connections[k] == s.connections[k]
  {
  }

  /** A second agreement through the same request is refused, and the whole transaction with it. */
  lemma {:induction false} SecondAgreementIsRefused(s: Market, k: nat, l: nat, now: int)
    requires MarketInv(s) && k < |s.connections| && l < |s.connections| && k != l
    requires s.connections[k].agreedAt.Some? && s.connections[k].request.Some?
             && s.connections[l].request == s.connections[k].request
    ensures ConfirmAgreement(s, s.connections[l].tenant, l, now) == Refused(s, RequestAlreadySettled)
  {
    assert s.connections[l].agreedAt.None?;
  }

  /** After an agreement nothing is open on its request or its property, and the other tables' rows are as before. */
  lemma {:induction false} AgreementClears(s: Market, u: UserId, k: nat, now: int)
    requires MarketInv(s) && k < |s.connections| && s.connections[k].agreedAt.None?
    requires ConfirmAgreement(s, u, k, now).refusal.None?
    ensures var t := ConfirmAgreement(s, u, k, now).market;
            var c := s.connections[k];
            && t.connections == s.connections[k := c.(agreedAt := Some(now))]
            && (forall i | 0 <= i < |t.offers|
               && (t.offers[i].property == c.property || c.request == Some(t.offers[i].request)) ::
                  !t.offers[i].Open())
            && (forall i | 0 <= i < |t.tenantOffers| && t.tenantOffers[i].property == c.property ::
               !t.tenantOffers[i].Active())
            && (c.request.Some? ==> t.requests[c.request.value].status.Fulfilled?)
            && (c.property in t.listings ==> t.listings[c.property].status.ArchivedListing?)
            && |t.offers| == |s.offers| && |t.tenantOffers| == |s.tenantOffers|
            && (forall i | 0 <= i < |s.offers| ::
                  t.offers[i] == s.offers[i]
                  || (s.offers[i].Open() && (s.offers[i].property == c.property
                     || c.request == Some(s.offers[i].request))
                      && t.offers[i] == s.offers[i].(status := Rejected)))
            && (forall i | 0 <= i < |s.tenantOffers| ::
                  t.tenantOffers[i] == s.tenantOffers[i]
                  || (s.tenantOffers[i].Active() && s.tenantOffers[i].property == c.property
                      && t.tenantOffers[i] == s.tenantOffers[i].(status := Declined)))
            && t.requests.Keys == s.requests.Keys && t.listings.Keys == s.listings.Keys
            && (forall r | r in s.requests && c.request != Some(r) :: t.requests[r] == s.requests[r])
            && (forall p | p in s.listings && p != c.property :: t.listings[p] == s.listings[p])
            && (c.request.Some? ==> t.requests[c.request.value].tenant == s.requests[c.request.value].tenant)
            && (c.property in s.listings ==> t.listings[c.property].owner == s.listings[c.property].owner)
  {
  }

  lemma {:induction false} RefusalsChangeNothing(s: Market, u: UserId, call: Call)
    requires Do(s, u, call).refusal.Some?
    ensures Do(s, u, call).market == s
  {
  }

  // ---- Whose call it is ----

  predicate ListingOpen(s: Market, p: PropertyId) {
    p in s.listings && s.listings[p].status.ApprovedListing?
  }

  /** Which calls on owner offers are accepted: the owner makes one, the tenant of the request answers it. */
  lemma {:induction false} OfferCallsAccepted(s: Market, u: UserId, call: Call)
    requires call.Offer? || call.View? || call.Accept? || call.Reject?
    ensures var accepted := Do(s, u, call).refusal.None?;
            match call
            case Offer(r, p, unitLeft) =>
              accepted <==>
              && r in s.requests && s.requests[r].status.ApprovedRequest?
              && ListingOpen(s, p) && s.listings[p].owner == u && unitLeft
              && !exists i | 0 <= i < |s.offers| :: s.offers[i].owner == u && s.offers[i].request == r
            case View(i) => accepted <==> IsTheTenants(s, u, i)
            case Accept(i) =>
              accepted <==>
              && IsTheTenants(s, u, i) && (s.offers[i].status.Sent? || s.offers[i].status.Viewed?)
              && ListingOpen(s, s.offers[i].property) && s.requests[s.offers[i].request].status.ApprovedRequest?
            case Reject(i) =>
              accepted <==> IsTheTenants(s, u, i) && (s.offers[i].status.Sent? || s.offers[i].status.Viewed?)
            case _ => true
  {
  }

  predicate IsTheTenants(s: Market, u: UserId, i: nat) {
    i < |s.offers| && s.offers[i].request in s.requests && s.requests[s.offers[i].request].tenant == u
  }

  predicate Made(s: Market, i: nat) {
    i < |s.tenantOffers|
  }

  /** Which calls on tenant offers are accepted: each answer is for the side that has not spoken last. */
  lemma {:induction false} TenantOfferCallsAccepted(s: Market, u: UserId, call: Call)
    requires call.OfferRent? || call.LandlordAccepts? || call.LandlordDeclines? || call.LandlordCounters?
             || call.TenantAccepts? || call.TenantWithdraws?
    ensures var accepted, offers := Do(s, u, call).refusal.None?, s.tenantOffers;
            match call
            case OfferRent(p, _) =>
              accepted <==>
              && ListingOpen(s, p) && s.listings[p].owner != u
              && !exists i | 0 <= i < |offers| ::
                    offers[i].tenant == u && offers[i].property == p
                    && (offers[i].status.Pending? || offers[i].status.Countered?)
            case LandlordAccepts(i) =>
              accepted <==>
              Made(s, i) && offers[i].owner == u && offers[i].status.Pending? && ListingOpen(s, offers[i].property)
            case TenantAccepts(i) =>
              accepted <==>
              Made(s, i) && offers[i].tenant == u && offers[i].status.Countered? && ListingOpen(s, offers[i].property)
            case LandlordCounters(i, _) => accepted <==> Made(s, i) && offers[i].owner == u && offers[i].status.Pending?
            case LandlordDeclines(i) =>
              accepted <==>
              Made(s, i) && offers[i].owner == u && (offers[i].status.Pending? || offers[i].status.Countered?)
            case TenantWithdraws(i) =>
              accepted <==>
              Made(s, i) && offers[i].tenant == u && (offers[i].status.Pending? || offers[i].status.Countered?)
            case _ => true
  {
  }

  /** The tenant confirms through a request, the owner without one, while the request is still open to it. */
  lemma {:induction false} ConfirmationAccepted(s: Market, u: UserId, k: nat, now: int)
    ensures ConfirmAgreement(s, u, k, now).refusal.None? <==>
            && k < |s.connections|
            && var c := s.connections[k];
               && (c.request.Some? ==> u == c.tenant) && (c.request.None? ==> u == c.owner)
               && (c.agreedAt.Some? || c.request.None?
                   || (&& c.request.value in s.requests && s.requests[c.request.value].tenant == c.tenant
                       && s.requests[c.request.value].status.ApprovedRequest?))
  {
  }

  /** How an owner's offer changes: by the tenant of its request, or because an agreement has made it void. */
  lemma {:induction false} OffersMove(s: Market, u: UserId, call: Call, i: nat)
    requires i < |s.offers|
    ensures var t := Do(s, u, call).market;
            && i < |t.offers| && t.offers[i] == s.offers[i].(status := t.offers[i].status)
            && (t.offers[i] != s.offers[i] ==>
                  match t.offers[i].status
                  case Viewed => call == View(i) && IsTheTenants(s, u, i) && s.offers[i].status.Sent?
                  case Accepted =>
                    && call == Accept(i) && IsTheTenants(s, u, i)
                    && t.connections == s.connections
                       + [Connection(u, s.offers[i].property, s.offers[i].owner, Some(s.offers[i].request), None)]
                  case Rejected =>
                    && (s.offers[i].status.Sent? || s.offers[i].status.Viewed?)
                    && ((call == Reject(i) && IsTheTenants(s, u, i)) || call.Confirm?)
                  case Sent => false)
  {
  }

  lemma {:induction false} NewOffersAreTheOwners(s: Market, u: UserId, call: Call, i: nat)
    requires |s.offers| <= i < |Do(s, u, call).market.offers|
    ensures call.Offer? && i == |s.offers|
    ensures Do(s, u, call).market.offers == s.offers + [OwnerOffer(u, call.on, call.property, Sent)]
  {
  }

  /**
   How a tenant's offer changes: accepted or countered by its owner while it is pending, accepted by its tenant
   once it is countered, declined by its owner, withdrawn by its tenant, or made void by an agreement.
   */
  lemma {:induction false} TenantOffersMove(s: Market, u: UserId, call: Call, i: nat)
    requires i < |s.tenantOffers|
    ensures var t := Do(s, u, call).market;
            && i < |t.tenantOffers|
            && var o, after := s.tenantOffers[i], t.tenantOffers[i];
               && after == o.(status := after.status, counter := after.counter)
               && (after != o ==>
                     match after.status
                     case TenantAccepted =>
                       && after.counter == o.counter
                       && ((call == LandlordAccepts(i) && u == o.owner && o.status.Pending?)
                           || (call == TenantAccepts(i) && u == o.tenant && o.status.Countered?))
                     case Countered =>
                       && call == LandlordCounters(i, call.counter) && u == o.owner && o.status.Pending?
                       && after.counter == Some(call.counter)
                     case Declined =>
                       && after.counter == o.counter && (o.status.Pending? || o.status.Countered?)
                       && ((call == LandlordDeclines(i) && u == o.owner) || call.Confirm?)
                     case Withdrawn =>
                       && after.counter == o.counter && (o.status.Pending? || o.status.Countered?)
                       && call == TenantWithdraws(i) && u == o.tenant
                     case Pending => false)
  {
  }

  lemma {:induction false} NewTenantOffersAreTheTenants(s: Market, u: UserId, call: Call, i: nat)
    requires |s.tenantOffers| <= i < |Do(s, u, call).market.tenantOffers|
    ensures call.OfferRent? && i == |s.tenantOffers| && call.rented in s.listings
    ensures Do(s, u, call).market.tenantOffers
            == s.tenantOffers + [TenantOffer(u, call.rented, s.listings[call.rented].owner, call.price, None, Pending)]
  {
  }

  /** How connections come about, and that only the party designated agrees on one. */
  lemma {:induction false} ConnectionsMove(s: Market, u: UserId, call: Call, k: nat)
    requires k < |Do(s, u, call).market.connections|
    ensures var t := Do(s, u, call).market;
            && |s.connections| <= |t.connections|
            && (k < |s.connections| && t.connections[k] != s.connections[k] ==>
                  && call.Confirm? && call.connection == k && s.connections[k].agreedAt.None?
                  && u == (if s.connections[k].request.Some? then s.connections[k].tenant else s.connections[k].owner)
                  && t.connections[k] == s.connections[k].(agreedAt := Some(call.at)))
            && (k >= |s.connections| ==>
                  && k == |s.connections|
                  && (call.Accept? || call.LandlordAccepts? || call.TenantAccepts?)
                  && (!call.Accept? ==>
                        var i := if call.LandlordAccepts? then call.la else call.ta;
                        && i < |s.tenantOffers|
                        && var o := s.tenantOffers[i];
                           && t.connections[k] == Connection(o.tenant, o.property, o.owner, None, None)
                           && forall l | 0 <= l < |s.connections| ::
                                s.connections[l].(agreedAt := None) != t.connections[k]))
  {
  }

  /** Requests are reviewed while they are pending, closed and archived by their tenant, fulfilled by an agreement. */
  lemma {:induction false} RequestsMove(s: Market, u: UserId, call: Call, r: RequestId)
    requires r in s.requests
    ensures var t := Do(s, u, call).market;
            && r in t.requests && t.requests[r].tenant == s.requests[r].tenant
            && (t.requests[r] != s.requests[r] ==>
                  match t.requests[r].status
                  case PendingRequest => false
                  case ApprovedRequest => call == Review(r, true) && s.requests[r].status.PendingRequest?
                  case RejectedRequest => call == Review(r, false) && s.requests[r].status.PendingRequest?
                  case Closed => call == Close(r) && u == s.requests[r].tenant
                  case ArchivedRequest => call == Delete && u == s.requests[r].tenant
                  case Fulfilled =>
                    && call.Confirm? && call.connection < |s.connections|
                    && s.connections[call.connection].request == Some(r) && u == s.requests[r].tenant)
  {
  }

  /** Listings belong to whoever posted them; agreements, and deleting the account of the owner, archive them. */
  lemma {:induction false} ListingsMove(s: Market, u: UserId, call: Call, p: PropertyId)
    ensures var t := Do(s, u, call).market;
            && (p in s.listings ==>
                  && p in t.listings && t.listings[p].owner == s.listings[p].owner
                  && (t.listings[p] != s.listings[p] ==>
                        || call == SetListing(p, t.listings[p].status)
                        || (call == Delete && u == s.listings[p].owner && t.listings[p].status.ArchivedListing?)
                        || (&& call.Confirm? && call.connection < |s.connections|
                            && s.connections[call.connection].property == p && t.listings[p].status.ArchivedListing?)))
            && (p !in s.listings && p in t.listings ==>
                  call == PostListing(p) && t.listings[p] == Listing(u, PendingListing))
  {
  }

  /** An accepted answer takes effect: the offer is viewed, accepted, countered, declined or withdrawn afterwards. */
  lemma {:induction false} AnswersTakeEffect(s: Market, u: UserId, call: Call)
    requires Do(s, u, call).refusal.None?
    ensures var t := Do(s, u, call).market;
            match call
            case View(i) => t.offers[i].status == if s.offers[i].status.Sent? then Viewed else s.offers[i].status
            case Accept(i) => t.offers[i].status == Accepted
            case Reject(i) => t.offers[i].status == Rejected
            case LandlordAccepts(i) =>
              t.tenantOffers[i].status == TenantAccepted && IsConnected(t.connections, s.tenantOffers[i])
            case TenantAccepts(i) =>
              t.tenantOffers[i].status == TenantAccepted && IsConnected(t.connections, s.tenantOffers[i])
            case LandlordCounters(i, price) => t.tenantOffers[i] == s.tenantOffers[i].(status := Countered,
                                                                                       counter := Some(price))
            case LandlordDeclines(i) => t.tenantOffers[i].status == Declined
            case TenantWithdraws(i) => t.tenantOffers[i].status == Withdrawn
            case Review(r, approve) => t.requests[r].status == if approve then ApprovedRequest else RejectedRequest
            case Close(r) => t.requests[r].status == Closed
            case Delete =>
              && (forall r | r in t.requests && t.requests[r].tenant == u :: t.requests[r].status == ArchivedRequest)
              && (forall p | p in t.listings && t.listings[p].owner == u :: t.listings[p].status == ArchivedListing)
            case Confirm(k, _) => t.connections[k].agreedAt.Some?
            case _ => true
  {
    if call.LandlordAccepts? {
      SettledIsConnected(s, call.la);
    } else if call.TenantAccepts? {
      SettledIsConnected(s, call.ta);
    }
  }

  lemma {:induction false} SettledIsConnected(s: Market, i: nat)
    requires i < |s.tenantOffers| && SettleAsMatch(s, i).refusal.None?
    ensures IsConnected(SettleAsMatch(s, i).market.connections, s.tenantOffers[i])
  {
    var t, o := SettleAsMatch(s, i).market, s.tenantOffers[i];
    var direct := DirectOf(s.connections, o);
    var k := if direct.Some? then direct.value else |s.connections|;
    assert IsDirect(t.connections[k], o);
  }

  /** The pair is connected directly over the listing. */
  ghost predicate IsConnected(cs: seq<Connection>, o: TenantOffer) {
    exists k | 0 <= k < |cs| ::
      && cs[k].tenant == o.tenant && cs[k].owner == o.owner && cs[k].property == o.property && cs[k].request.None?
  }

  /** So a tenant offer that a run leaves accepted was accepted in one of its turns, by the side it was put to. */
  lemma {:induction false} AcceptedByOtherSide(s: Market, turns: seq<Turn>, i: nat) returns (j: nat)
    requires i < |Run(s, turns).tenantOffers| && Run(s, turns).tenantOffers[i].status.TenantAccepted?
    requires i < |s.tenantOffers| ==> !s.tenantOffers[i].status.TenantAccepted?
    ensures j < |turns|
    ensures var before, o := Run(s, turns[..j]), Run(s, turns).tenantOffers[i];
            && i < |before.tenantOffers|
            && ((&& turns[j] == Turn(o.owner, LandlordAccepts(i)) && before.tenantOffers[i].status.Pending?)
                || (&& turns[j] == Turn(o.tenant, TenantAccepts(i)) && before.tenantOffers[i].status.Countered?))
    decreases |turns|
  {
    var n := |turns| - 1;
    var before := Run(s, turns[..n]);
    RunSnoc(s, turns);
    if i < |before.tenantOffers| && before.tenantOffers[i].status.TenantAccepted? {
      j := AcceptedByOtherSide(s, turns[..n], i);
      TenantOffersMove(before, turns[n].user, turns[n].call, i);
      assert turns[..n][..j] == turns[..j];
    } else {
      j := n;
      if i < |before.tenantOffers| {
        TenantOffersMove(before, turns[n].user, turns[n].call, i);
      } else {
        NewTenantOffersAreTheTenants(before, turns[n].user, turns[n].call, i);
      }
    }
  }

  lemma {:induction false} RunSnoc(s: Market, turns: seq<Turn>)
    requires turns != []
    ensures var n := |turns| - 1;
            Run(s, turns) == Do(Run(s, turns[..n]), turns[n].user, turns[n].call).market
    decreases |turns|
  {
    if |turns| > 1 {
      RunSnoc(Do(s, turns[0].user, turns[0].call).market, turns[1..]);
      assert turns[1..][..|turns| - 2] == turns[..|turns| - 1][1..];
    } else {
      assert turns[1..] == [] && turns[..0] == [];
    }
  }
}
