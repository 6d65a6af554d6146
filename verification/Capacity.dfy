/** Active-listing limits: the grace an owner over the limit gets, and what the hourly job archives when it is over. */
module Capacity {
  import opened Wrappers
  import opened Calendar
  import opened PricingCatalog
  import opened Subscription
  import opened Ledger
  import opened Boosts
  import opened Settlement

  predicate CountsAsActive(l: Listing, u: UserId) {
    l.ownerId == u && (l.status == PENDING || l.status == APPROVED)
  }

  function ActiveListings(listings: map<PropertyId, Listing>, u: UserId): set<PropertyId> {
    set p | p in listings && CountsAsActive(listings[p], u)
  }

  /** Plan allowance plus usable listing add-ons. */
  function ActiveLimit(q: UserQuota, grants: seq<Grant>, u: UserId, now: int): int {
    q.maxActiveListings + UsableUnits(grants, u, ActiveListing, now)
  }

  /** `getListingCapacity` on the quota row: a grace period starts with the excess and ends with it. */
  function WithGrace(q: UserQuota, count: int, limit: int, now: int): UserQuota {
    if count > limit && q.listingGraceEndsAt.None? then
      q.(listingGraceEndsAt := Some(AddDays(now, LISTING_CAPACITY_GRACE_DAYS)))
    else if count <= limit && q.listingGraceEndsAt.Some? then
      q.(listingGraceEndsAt := None)
    else q
  }

  function CapacityQuota(rows: Rows, u: UserId, now: int): UserQuota {
    var q := EnsureCurrentPeriod(QuotaRow(rows, u), now, rows.plans);
    WithGrace(q, |ActiveListings(rows.boosts.listings, u)|, ActiveLimit(q, rows.grants, u, now), now)
  }

  function CapacityRow(rows: Rows, u: UserId, now: int): Rows {
    rows.(quotas := rows.quotas[u := CapacityQuota(rows, u, now)])
  }

  /** `create`: a new listing in a region that is open, where one more fits within the limit. */
  function CreateListing(rows: Rows, u: UserId, p: PropertyId, regionOpen: bool, now: int): (Rows, bool) {
    var r := CapacityRow(rows, u, now);
    var limit := ActiveLimit(r.quotas[u], rows.grants, u, now);
    if |ActiveListings(rows.boosts.listings, u)| >= limit || !regionOpen || p in rows.boosts.listings then (r, false)
    else (r.(boosts := AddListing(r.boosts, p, u, now)), true)
  }

  /** `archive` changes the status alone, `unarchive` takes the boost away too; neither looks at the limit. */
  function ArchiveListing(rows: Rows, u: UserId, p: PropertyId): (Rows, bool) {
    if p !in rows.boosts.listings || rows.boosts.listings[p].ownerId != u then (rows, false)
    else (rows.(boosts := SetStatus(rows.boosts, p, ARCHIVED)), true)
  }

  function UnarchiveListing(rows: Rows, u: UserId, p: PropertyId): (Rows, bool) {
    if p !in rows.boosts.listings || rows.boosts.listings[p].ownerId != u then (rows, false)
    else (rows.(boosts := DropBoost(rows.boosts, p, PENDING)), true)
  }

  predicate GraceOver(q: UserQuota, count: int, limit: int, now: int) {
    q.listingGraceEndsAt.Some? && q.listingGraceEndsAt.value <= now && count > limit
  }

  /** `chosen` are the newest `k` of the listings; equally old ones may stand in for each other. */
  predicate NewestOf(listings: map<PropertyId, Listing>, all: set<PropertyId>, chosen: set<PropertyId>, k: int)
    requires all <= listings.Keys
  {
    && chosen <= all && |chosen| == k
    && forall c, r | c in chosen && r in all && r !in chosen :: listings[r].createdAt <= listings[c].createdAt
  }

  function Archived(listings: map<PropertyId, Listing>, chosen: set<PropertyId>): map<PropertyId, Listing> {
    map p | p in listings :: if p in chosen then listings[p].(status := ARCHIVED) else listings[p]
  }

  function TurnQuota(rows: Rows, u: UserId, now: int): UserQuota {
    var q := CapacityQuota(rows, u, now);
    if GraceOver(q, |ActiveListings(rows.boosts.listings, u)|, ActiveLimit(q, rows.grants, u, now), now)
    then q.(listingGraceEndsAt := None) else q
  }

  /** What the owner's turn may archive: the newest in excess of the limit once grace is over, else nothing. */
  predicate TurnChoice(rows: Rows, u: UserId, chosen: set<PropertyId>, now: int) {
    var q := CapacityQuota(rows, u, now);
    var active := ActiveListings(rows.boosts.listings, u);
    var limit := ActiveLimit(q, rows.grants, u, now);
    if GraceOver(q, |active|, limit, now) then NewestOf(rows.boosts.listings, active, chosen, |active| - limit)
    else chosen == {}
  }

  /** One owner's turn of the hourly job. */
  function TurnRows(rows: Rows, u: UserId, chosen: set<PropertyId>, now: int): Rows {
    rows.(quotas := rows.quotas[u := TurnQuota(rows, u, now)],
          boosts := rows.boosts.(listings := Archived(rows.boosts.listings, chosen)))
  }

  lemma {:induction false} ArchivingRemoves(listings: map<PropertyId, Listing>, u: UserId, chosen: set<PropertyId>)
    requires chosen <= ActiveListings(listings, u)
    ensures var before, after := ActiveListings(listings, u), ActiveListings(Archived(listings, chosen), u);
            after == before - chosen && |after| == |before| - |chosen|
    ensures forall v | v != u :: ActiveListings(Archived(listings, chosen), v) == ActiveListings(listings, v)
  {
    var before := ActiveListings(listings, u);
    assert ActiveListings(Archived(listings, chosen), u) == before - chosen;
    assert |before - chosen| + |chosen| == |before| by {
      assert before == (before - chosen) + chosen;
    }
    forall v | v != u
      ensures ActiveListings(Archived(listings, chosen), v) == ActiveListings(listings, v)
    {
    }
  }

  /** The owner is within the limit, or has until a later moment to get there. */
  predicate WithinLimitOrGrace(rows: Rows, u: UserId, now: int) {
    u in rows.quotas &&
    var q := rows.quotas[u];
    || |ActiveListings(rows.boosts.listings, u)| <= ActiveLimit(q, rows.grants, u, now)
    || (q.listingGraceEndsAt.Some? && now < q.listingGraceEndsAt.value)
  }

  /**
   What an owner's turn does to the owner's rows: an expired grace leaves exactly the limit, the oldest
   listings, and archives the others; otherwise no listing moves.
   */
  predicate TurnOutcome(rows: Rows, r: Rows, u: UserId, now: int) {
    var q := CapacityQuota(rows, u, now);
    var before, after := ActiveListings(rows.boosts.listings, u), ActiveListings(r.boosts.listings, u);
    var limit := ActiveLimit(q, rows.grants, u, now);
    && u in r.quotas
    && after <= before <= r.boosts.listings.Keys
    && (if GraceOver(q, |before|, limit, now)
        then |after| == limit && r.quotas[u] == q.(listingGraceEndsAt := None)
        else after == before && r.quotas[u] == q)
    && (forall kept, gone | kept in after && gone in before && gone !in after ::
          rows.boosts.listings[kept].createdAt <= rows.boosts.listings[gone].createdAt)
    && (forall gone | gone in before && gone !in after :: r.boosts.listings[gone].status == ARCHIVED)
  }

  /** After an owner's turn the limit holds or grace is still running. */
  lemma {:induction false} EnforcementOutcome(rows: Rows, u: UserId, chosen: set<PropertyId>, now: int)
    requires TurnChoice(rows, u, chosen, now)
    ensures WithinLimitOrGrace(TurnRows(rows, u, chosen, now), u, now)
    ensures TurnOutcome(rows, TurnRows(rows, u, chosen, now), u, now)
  {
    ArchivingRemoves(rows.boosts.listings, u, chosen);
  }

  /** Whoever is first seen over the limit has seven full days; within the limit no deadline runs. */
  lemma {:induction false} GraceLastsSevenDays(rows: Rows, u: UserId, now: int)
    requires u in rows.quotas && QuotaInv(rows.quotas[u]) && rows.quotas[u].listingGraceEndsAt.None?
    ensures var q := CapacityQuota(rows, u, now);
            var count := |ActiveListings(rows.boosts.listings, u)|;
            var limit := ActiveLimit(q, rows.grants, u, now);
            && (count <= limit ==> q.listingGraceEndsAt.None?)
            && (count > limit ==> q.listingGraceEndsAt == Some(now + 7 * DAY_MS) && !GraceOver(q, count, limit, now))
  {
  }

  /** Creating a listing adds one to the active ones, never beyond the limit, and only where no grace is running. */
  lemma {:induction false} CreateRespectsLimit(rows: Rows, u: UserId, p: PropertyId, regionOpen: bool, now: int)
    requires p !in rows.boosts.listings
    ensures var (r, created) := CreateListing(rows, u, p, regionOpen, now);
            var count, limit := |ActiveListings(rows.boosts.listings, u)|, ActiveLimit(r.quotas[u], r.grants, u, now);
            && (created <==> count < limit && regionOpen)
            && (!created ==> r == CapacityRow(rows, u, now))
            && (created ==>
                  && ActiveListings(r.boosts.listings, u) == ActiveListings(rows.boosts.listings, u) + {p}
                  && |ActiveListings(r.boosts.listings, u)| == count + 1 <= limit
                  && r.boosts == rows.boosts.(listings :=
                       rows.boosts.listings[p := Listing(u, PENDING, now, false, None)])
                  && r.quotas[u].listingGraceEndsAt.None?)
  {
    var (r, created) := CreateListing(rows, u, p, regionOpen, now);
    if created {
      assert ActiveListings(r.boosts.listings, u) == ActiveListings(rows.boosts.listings, u) + {p};
    }
  }

  /** The limit that the owner's next call would find. */
  function LimitOf(rows: Rows, u: UserId, now: int): int {
    ActiveLimit(CapacityQuota(rows, u, now), rows.grants, u, now)
  }

  /**
   What takes a place: a listing of the owner that waits for moderation or is approved. So approving one frees
   no place, and rejecting or archiving one does.
   */
  lemma {:induction false} ModerationMovesPlaces(rows: BoostRows, u: UserId, p: PropertyId, status: PropertyStatus)
    requires p in rows.listings && rows.listings[p].ownerId == u
    ensures var before := ActiveListings(rows.listings, u);
            var after := ActiveListings(SetStatus(rows, p, status).listings, u);
            && (status == PENDING || status == APPROVED ==> after == before + {p})
            && (status == REJECTED || status == ARCHIVED ==> after == before - {p})
    ensures forall v | v != u ::
              ActiveListings(SetStatus(rows, p, status).listings, v) == ActiveListings(rows.listings, v)
  {
  }

  /** An add-on for one more listing raises the limit of its owner while it runs. */
  lemma {:induction false} AddOnRaisesLimit(q: UserQuota, grants: seq<Grant>, g: Grant, u: UserId, now: int)
    ensures ActiveLimit(q, [], u, now) == q.maxActiveListings
    ensures ActiveLimit(q, grants + [g], u, now)
            == ActiveLimit(q, grants, u, now)
               + if g.userId == u && g.kind == ActiveListing && g.startsAt <= now < g.expiresAt && g.remaining > 0
                 then g.remaining else 0
  {
    GrantAddsUnits(grants, g, u, ActiveListing, now);
  }

  /** Before the deadline a turn archives nothing; from the deadline on it leaves exactly the limit. */
  lemma {:induction false} DeadlineDecides(rows: Rows, u: UserId, chosen: set<PropertyId>, deadline: int, now: int)
    requires TurnChoice(rows, u, chosen, now)
    requires u in rows.quotas && rows.quotas[u].listingGraceEndsAt == Some(deadline)
    ensures var count, limit := |ActiveListings(rows.boosts.listings, u)|, LimitOf(rows, u, now);
            var r := TurnRows(rows, u, chosen, now);
            && (now < deadline || count <= limit ==> r.boosts == rows.boosts)
            && (deadline <= now && count > limit ==> |ActiveListings(r.boosts.listings, u)| == limit)
            && (count > limit ==> r.quotas[u].listingGraceEndsAt == if now < deadline then Some(deadline) else None)
            && (count <= limit ==> r.quotas[u].listingGraceEndsAt.None?)
  {
    EnforcementOutcome(rows, u, chosen, now);
    assert chosen == {} ==> Archived(rows.boosts.listings, chosen) == rows.boosts.listings;
  }

  /**
   Only the owner archives or unarchives. An archived listing keeps its boost; an unarchived one waits for
   moderation again, without one.
   */
  lemma {:induction false} OnlyTheOwnerArchives(rows: Rows, u: UserId, p: PropertyId)
    ensures var mine := p in rows.boosts.listings && rows.boosts.listings[p].ownerId == u;
            && ArchiveListing(rows, u, p).1 == UnarchiveListing(rows, u, p).1 == mine
            && (!mine ==> ArchiveListing(rows, u, p).0 == UnarchiveListing(rows, u, p).0 == rows)
            && (mine ==>
                  var l := rows.boosts.listings[p];
                  && ArchiveListing(rows, u, p).0
                     == rows.(boosts := rows.boosts.(listings := rows.boosts.listings[p := l.(status := ARCHIVED)]))
                  && UnarchiveListing(rows, u, p).0
                     == rows.(boosts := rows.boosts.(listings := rows.boosts.listings[p :=
                                l.(status := PENDING, isBoosted := false, boostedUntil := None)])))
  {
  }

  /** Archiving and unarchiving move one listing out of the active ones and in again. */
  lemma {:induction false} ArchivingMovesOne(rows: Rows, u: UserId, p: PropertyId)
    requires p in rows.boosts.listings && rows.boosts.listings[p].ownerId == u
    ensures ActiveListings(ArchiveListing(rows, u, p).0.boosts.listings, u)
            == ActiveListings(rows.boosts.listings, u) - {p}
    ensures ActiveListings(UnarchiveListing(rows, u, p).0.boosts.listings, u)
            == ActiveListings(rows.boosts.listings, u) + {p}
  {
  }

  predicate WithinLimit(rows: Rows, u: UserId, now: int) {
    |ActiveListings(rows.boosts.listings, u)| <= LimitOf(rows, u, now)
  }

  /** An owner within the limit is still within it after unarchiving a listing if and only if one more fitted. */
  lemma {:induction false} UnarchivingFitsOnlyBelowLimit(rows: Rows, u: UserId, p: PropertyId, now: int)
    requires p in rows.boosts.listings && rows.boosts.listings[p].ownerId == u
    requires !CountsAsActive(rows.boosts.listings[p], u)
    requires WithinLimit(rows, u, now)
    ensures WithinLimit(UnarchiveListing(rows, u, p).0, u, now)
            <==> |ActiveListings(rows.boosts.listings, u)| < LimitOf(rows, u, now)
  {
    ArchivingMovesOne(rows, u, p);
  }

  const NOTHING := Rows(map[], [], BoostRows([], map[]), map[], map[], map[])

  lemma {:induction false} FirstListing(u: UserId, now: int)
    ensures var (r, created) := CreateListing(NOTHING, u, "a", true, now);
            && created && ActiveListings(r.boosts.listings, u) == {"a"}
            && r.quotas == map[u := NewQuota(now, map[])] && r.grants == [] && r.plans == map[]
  {
    assert ActiveListings(map[], u) == {};
    CreateRespectsLimit(NOTHING, u, "a", true, now);
  }

  /** The limit of an owner who has just been given the free plan. */
  lemma {:induction false} FreeLimit(rows: Rows, u: UserId, now: int)
    requires rows.quotas == map[u := NewQuota(now, map[])] && rows.grants == [] && rows.plans == map[]
    ensures LimitOf(rows, u, now) == 1 && CapacityQuota(rows, u, now).maxActiveListings == 1
    ensures |ActiveListings(rows.boosts.listings, u)| <= 1 ==> CapacityRow(rows, u, now) == rows
  {
    EnsureIsIdempotent(None, now, map[]);
    assert rows.quotas == rows.quotas[u := rows.quotas[u]];
  }

  /** A run that ends beyond the limit: create, archive, create another, unarchive the first. */
  lemma {:induction false} UnarchivingPassesLimit(u: UserId, now: int)
    ensures var (first, created) := CreateListing(NOTHING, u, "a", true, now);
            var (archived, found) := ArchiveListing(first, u, "a");
            var (second, createdToo) := CreateListing(archived, u, "b", true, now);
            var (both, foundToo) := UnarchiveListing(second, u, "a");
            && created && found && createdToo && foundToo
            && |ActiveListings(both.boosts.listings, u)| == 2 && LimitOf(both, u, now) == 1
  {
    FirstListing(u, now);
    var first := CreateListing(NOTHING, u, "a", true, now).0;
    var archived := ArchiveListing(first, u, "a").0;
    ArchivingMovesOne(first, u, "a");
    assert ActiveListings(archived.boosts.listings, u) == {};
    FreeLimit(archived, u, now);
    SecondListing(archived, u, now);
  }

  lemma {:induction false} SecondListing(rows: Rows, u: UserId, now: int)
    requires rows.quotas == map[u := NewQuota(now, map[])] && rows.grants == [] && rows.plans == map[]
    requires "a" in rows.boosts.listings && rows.boosts.listings["a"].ownerId == u && "b" !in rows.boosts.listings
    requires ActiveListings(rows.boosts.listings, u) == {}
    ensures var (second, created) := CreateListing(rows, u, "b", true, now);
            var (both, found) := UnarchiveListing(second, u, "a");
            && created && found
            && |ActiveListings(both.boosts.listings, u)| == 2 && LimitOf(both, u, now) == 1
  {
    FreeLimit(rows, u, now);
    CreateRespectsLimit(rows, u, "b", true, now);
    var second := CreateListing(rows, u, "b", true, now).0;
    ArchivingMovesOne(second, u, "a");
    FreeLimit(UnarchiveListing(second, u, "a").0, u, now);
    assert ActiveListings(UnarchiveListing(second, u, "a").0.boosts.listings, u) == {"b", "a"};
  }

  // The whole job.

  /** Two states agree on everything that concerns one owner's limit. */
  predicate SameOwnerRows(rows: Rows, r: Rows, u: UserId) {
    && r.grants == rows.grants && r.plans == rows.plans
    && QuotaRow(r, u) == QuotaRow(rows, u)
    && ActiveListings(r.boosts.listings, u) == ActiveListings(rows.boosts.listings, u)
    && forall p | p in rows.boosts.listings && rows.boosts.listings[p].ownerId == u ::
         p in r.boosts.listings && r.boosts.listings[p] == rows.boosts.listings[p]
  }

  predicate OwnersKept(rows: Rows, r: Rows) {
    forall p | p in rows.boosts.listings ::
      p in r.boosts.listings && r.boosts.listings[p].ownerId == rows.boosts.listings[p].ownerId
  }

  /** Nobody else's quota or listings move. */
  lemma {:induction false} EnforcementSparesOthers(rows: Rows, u: UserId, chosen: set<PropertyId>, now: int)
    requires chosen <= ActiveListings(rows.boosts.listings, u)
    ensures OwnersKept(rows, TurnRows(rows, u, chosen, now))
    ensures forall v | v != u :: SameOwnerRows(rows, TurnRows(rows, u, chosen, now), v)
  {
    ArchivingRemoves(rows.boosts.listings, u, chosen);
  }

  /** How far the job has come: finished owners have had their turn, and nothing of a waiting owner's has moved. */
  predicate JobProgress(start: Rows, rows: Rows, waiting: set<UserId>, now: int) {
    && rows.quotas.Keys == start.quotas.Keys
    && OwnersKept(start, rows)
    && (forall u | u in rows.quotas && u !in waiting ::
       WithinLimitOrGrace(rows, u, now) && TurnOutcome(start, rows, u, now))
    && (forall u | u in rows.quotas && u in waiting :: SameOwnerRows(start, rows, u))
  }

  lemma {:induction false} JobStarts(start: Rows, now: int)
    ensures JobProgress(start, start, start.quotas.Keys, now)
  {
  }

  lemma {:induction false} JobAdvances(start: Rows, rows: Rows, waiting: set<UserId>, u: UserId,
      chosen: set<PropertyId>, now: int)
    requires JobProgress(start, rows, waiting, now) && u in waiting && u in rows.quotas
    requires TurnChoice(rows, u, chosen, now)
    ensures JobProgress(start, TurnRows(rows, u, chosen, now), waiting - {u}, now)
  {
    var r := TurnRows(rows, u, chosen, now);
    EnforcementOutcome(rows, u, chosen, now);
    EnforcementSparesOthers(rows, u, chosen, now);
    ProgressFrom(start, rows, r, waiting, u, now);
  }

  lemma {:induction false} ProgressFrom(start: Rows, rows: Rows, r: Rows, waiting: set<UserId>, u: UserId, now: int)
    requires JobProgress(start, rows, waiting, now) && u in waiting && u in rows.quotas
    requires WithinLimitOrGrace(r, u, now) && TurnOutcome(rows, r, u, now)
    requires r.quotas.Keys == rows.quotas.Keys && OwnersKept(rows, r)
    requires forall v | v != u :: SameOwnerRows(rows, r, v)
    ensures JobProgress(start, r, waiting - {u}, now)
  {
    TurnFromStart(start, rows, r, u, now);
    forall v | v in r.quotas && v !in waiting
      ensures WithinLimitOrGrace(r, v, now) && TurnOutcome(start, r, v, now)
    {
      TurnStands(start, rows, r, v, now);
    }
    forall v | v in r.quotas && v in waiting && v != u
      ensures SameOwnerRows(start, r, v)
    {
      assert SameOwnerRows(start, rows, v) && SameOwnerRows(rows, r, v);
    }
  }

  lemma {:induction false} TurnFromStart(start: Rows, rows: Rows, r: Rows, u: UserId, now: int)
    requires SameOwnerRows(start, rows, u) && TurnOutcome(rows, r, u, now)
    ensures TurnOutcome(start, r, u, now)
  {
    assert CapacityQuota(rows, u, now) == CapacityQuota(start, u, now);
  }

  lemma {:induction false} TurnStands(start: Rows, rows: Rows, r: Rows, u: UserId, now: int)
    requires TurnOutcome(start, rows, u, now) && WithinLimitOrGrace(rows, u, now) && SameOwnerRows(rows, r, u)
    requires OwnersKept(start, rows)
    ensures TurnOutcome(start, r, u, now) && WithinLimitOrGrace(r, u, now)
  {
  }
}
