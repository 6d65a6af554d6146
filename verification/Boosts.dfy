/**
 Boost campaigns of a listing: bought and plan boosts are
 queued end to end, and an hourly pass moves their status.
 */
module Boosts {
  import opened Wrappers
  import opened Calendar
  import opened Ledger

  type PropertyId = string

  datatype CampaignStatus = Scheduled | Active | Expired | Cancelled

  datatype Campaign = Campaign(
    propertyId: PropertyId,
    userId: UserId,
    paymentTransaction: Option<OrderId>,
    durationDays: int,
    startsAt: int,
    endsAt: int,
    status: CampaignStatus)
  {
    predicate Open() {
      status == Active || status == Scheduled
    }

    predicate Covers(t: int) {
      startsAt <= t < endsAt
    }
  }

  datatype PropertyStatus = PENDING | APPROVED | REJECTED | ARCHIVED

  datatype Listing = Listing(
    ownerId: UserId,
    status: PropertyStatus,
    createdAt: int,
    isBoosted: bool,
    boostedUntil: Option<int>)

  datatype BoostRows = BoostRows(campaigns: seq<Campaign>, listings: map<PropertyId, Listing>)

  /** The latest end among the open campaigns of a listing that have not ended. */
  function LatestEnd(cs: seq<Campaign>, p: PropertyId, now: int): Option<int> {
    if cs == [] then None
    else
      var c := cs[|cs| - 1];
      var best := LatestEnd(cs[..|cs| - 1], p, now);
      if c.propertyId == p && c.Open() && c.endsAt > now && (best.None? || best.value < c.endsAt)
      then Some(c.endsAt) else best
  }

  function NextStart(cs: seq<Campaign>, p: PropertyId, now: int): int {
    var latest := LatestEnd(cs, p, now);
    if latest.Some? then latest.value else now
  }

  function NewCampaign(cs: seq<Campaign>, p: PropertyId, u: UserId, payment: Option<OrderId>, days: int,
      now: int): Campaign
  {
    var start := NextStart(cs, p, now);
    Campaign(p, u, payment, days, start, AddDays(start, days), if start <= now then Active else Scheduled)
  }

  function AddCampaign(rows: BoostRows, p: PropertyId, u: UserId, payment: Option<OrderId>, days: int,
      now: int): BoostRows
    requires p in rows.listings
  {
    var c := NewCampaign(rows.campaigns, p, u, payment, days, now);
    BoostRows(rows.campaigns + [c],
              rows.listings[p := rows.listings[p].(isBoosted := true, boostedUntil := Some(c.endsAt))])
  }

  /** Unarchiving or removing a listing drops its boost flag and leaves its campaigns. */
  function DropBoost(rows: BoostRows, p: PropertyId, status: PropertyStatus): BoostRows
    requires p in rows.listings
  {
    rows.(listings := rows.listings[p := rows.listings[p].(status := status, isBoosted := false, boostedUntil := None)])
  }

  /** Moderation, archiving and agreements change a listing's status alone. */
  function SetStatus(rows: BoostRows, p: PropertyId, status: PropertyStatus): BoostRows
    requires p in rows.listings
  {
    rows.(listings := rows.listings[p := rows.listings[p].(status := status)])
  }

  /** A new listing waits for moderation, without a boost. */
  function AddListing(rows: BoostRows, p: PropertyId, owner: UserId, now: int): BoostRows {
    rows.(listings := rows.listings[p := Listing(owner, PENDING, now, false, None)])
  }

  function ReconciledListing(l: Listing, now: int): Listing {
    if l.isBoosted && l.boostedUntil.Some? && l.boostedUntil.value <= now
    then l.(isBoosted := false, boostedUntil := None) else l
  }

  function ReconciledCampaign(c: Campaign, now: int): Campaign {
    if c.Open() && c.endsAt <= now then c.(status := Expired)
    else if c.status == Scheduled && c.Covers(now) then c.(status := Active)
    else c
  }

  function ReconciledCampaigns(cs: seq<Campaign>, now: int): seq<Campaign> {
    seq(|cs|, i requires 0 <= i < |cs| => ReconciledCampaign(cs[i], now))
  }

  /** The hourly pass reads the clock once for the listings and again for the campaigns. */
  function Reconcile(rows: BoostRows, first: int, second: int): BoostRows {
    BoostRows(ReconciledCampaigns(rows.campaigns, second),
              map p | p in rows.listings :: ReconciledListing(rows.listings[p], first))
  }

  predicate LatestCampaignEnd(cs: seq<Campaign>, p: PropertyId, end: int) {
    && (exists i | 0 <= i < |cs| :: cs[i].propertyId == p && cs[i].endsAt == end)
    && (forall i | 0 <= i < |cs| :: cs[i].propertyId == p ==> cs[i].endsAt <= end)
  }

  /** A campaign starts when it was bought, or where another one of its listing ends. */
  predicate NoGapBefore(cs: seq<Campaign>, i: nat, now: int)
    requires i < |cs|
  {
    cs[i].startsAt <= now || exists j | 0 <= j < |cs| ::
      cs[j].propertyId == cs[i].propertyId && cs[j].endsAt == cs[i].startsAt
  }

  /** A campaign runs for the days bought, and its status is not ahead of the clock. */
  predicate SoundCampaign(c: Campaign, now: int) {
    && c.durationDays >= 1
    && c.endsAt == AddDays(c.startsAt, c.durationDays)
    && (c.status == Expired ==> c.endsAt <= now)
    && (c.status == Active ==> c.startsAt <= now)
    && c.status != Cancelled
  }

  predicate InOrder(cs: seq<Campaign>) {
    forall i, j | 0 <= i < j < |cs| :: cs[i].propertyId == cs[j].propertyId ==> cs[i].endsAt <= cs[j].startsAt
  }

  predicate CampaignsInv(cs: seq<Campaign>, now: int) {
    && (forall i | 0 <= i < |cs| :: SoundCampaign(cs[i], now))
    && (forall i | 0 <= i < |cs| :: NoGapBefore(cs, i, now))
    && InOrder(cs)
  }

  predicate FlagsInv(rows: BoostRows) {
    forall p | p in rows.listings ::
      rows.listings[p].isBoosted ==>
        rows.listings[p].boostedUntil.Some? && LatestCampaignEnd(rows.campaigns, p, rows.listings[p].boostedUntil.value)
  }

  predicate BoostInv(rows: BoostRows, now: int) {
    CampaignsInv(rows.campaigns, now) && FlagsInv(rows)
  }

  lemma {:induction false} LatestEndIsLatest(cs: seq<Campaign>, p: PropertyId, now: int)
    ensures var r := LatestEnd(cs, p, now);
            && (forall i | 0 <= i < |cs| ::
                  cs[i].propertyId == p && cs[i].Open() && cs[i].endsAt > now ==> r.Some? && cs[i].endsAt <= r.value)
            && (r.Some? ==> r.value > now && exists i | 0 <= i < |cs| ::
               cs[i].propertyId == p && cs[i].endsAt == r.value)
  {
    if cs != [] {
      var n := |cs| - 1;
      LatestEndIsLatest(cs[..n], p, now);
      assert forall i | 0 <= i < n :: cs[..n][i] == cs[i];
      var r := LatestEnd(cs[..n], p, now);
      if r.Some? {
        var i :| 0 <= i < n && cs[..n][i].propertyId == p && cs[..n][i].endsAt == r.value;
        assert cs[i].propertyId == p && cs[i].endsAt == r.value;
      }
    }
  }

  /** A new campaign starts no earlier than now and than any other campaign of its listing ends. */
  lemma {:induction false} NewCampaignQueues(rows: BoostRows, p: PropertyId, now: int)
    requires BoostInv(rows, now)
    ensures var start := NextStart(rows.campaigns, p, now);
            && now <= start
            && (forall i | 0 <= i < |rows.campaigns| && rows.campaigns[i].propertyId == p ::
               rows.campaigns[i].endsAt <= start)
            && (start > now ==> exists i | 0 <= i < |rows.campaigns| ::
                                  rows.campaigns[i].propertyId == p && rows.campaigns[i].endsAt == start)
  {
    LatestEndIsLatest(rows.campaigns, p, now);
  }

  /** What a boost adds: one campaign of the days asked for, running at once unless it waits behind another one. */
  lemma {:induction false} BoostAddsCampaign(rows: BoostRows, p: PropertyId, u: UserId, payment: Option<OrderId>,
      days: int, now: int)
    requires BoostInv(rows, now) && p in rows.listings
    ensures var r := AddCampaign(rows, p, u, payment, days, now);
            && |r.campaigns| == |rows.campaigns| + 1 && r.campaigns[..|rows.campaigns|] == rows.campaigns
            && var c := r.campaigns[|rows.campaigns|];
               && c == Campaign(p, u, payment, days, c.startsAt, c.startsAt + days * DAY_MS,
                                if c.startsAt <= now then Active else Scheduled)
               && now <= c.startsAt
               && (c.startsAt == now <==> forall i | 0 <= i < |rows.campaigns| ::
                     rows.campaigns[i].propertyId == p ==> rows.campaigns[i].endsAt <= now)
               && r.listings == rows.listings[p := rows.listings[p].(isBoosted := true, boostedUntil := Some(c.endsAt))]
  {
    NewCampaignQueues(rows, p, now);
  }

  lemma {:induction false} TimePasses(rows: BoostRows, now: int, later: int)
    requires BoostInv(rows, now) && now <= later
    ensures BoostInv(rows, later)
  {
    var cs := rows.campaigns;
    forall i | 0 <= i < |cs|
      ensures NoGapBefore(cs, i, later)
    {
      assert NoGapBefore(cs, i, now);
    }
  }

  lemma {:induction false} AddCampaignKeepsInv(rows: BoostRows, p: PropertyId, u: UserId, payment: Option<OrderId>,
      days: int, now: int)
    requires BoostInv(rows, now) && p in rows.listings && days >= 1
    ensures BoostInv(AddCampaign(rows, p, u, payment, days, now), now)
  {
    NewCampaignQueues(rows, p, now);
    var cs := rows.campaigns;
    var n := |cs|;
    var r := AddCampaign(rows, p, u, payment, days, now);
    forall i | 0 <= i <= n
      ensures NoGapBefore(r.campaigns, i, now)
    {
      if i < n {
        assert NoGapBefore(cs, i, now);
        if cs[i].startsAt > now {
          var j :| 0 <= j < n && cs[j].propertyId == cs[i].propertyId && cs[j].endsAt == cs[i].startsAt;
          assert r.campaigns[j] == cs[j];
        }
      } else if r.campaigns[n].startsAt > now {
        var j :| 0 <= j < n && cs[j].propertyId == p && cs[j].endsAt == r.campaigns[n].startsAt;
        assert r.campaigns[j] == cs[j];
      }
    }
    forall q | q in r.listings && r.listings[q].isBoosted
      ensures r.listings[q].boostedUntil.Some? && LatestCampaignEnd(r.campaigns, q, r.listings[q].boostedUntil.value)
    {
      if q == p {
        assert r.campaigns[n].propertyId == p;
      } else {
        var end := rows.listings[q].boostedUntil.value;
        var i :| 0 <= i < n && cs[i].propertyId == q && cs[i].endsAt == end;
        assert r.campaigns[i] == cs[i];
      }
    }
  }

  lemma {:induction false} DropBoostKeepsInv(rows: BoostRows, p: PropertyId, status: PropertyStatus, now: int)
    requires BoostInv(rows, now) && p in rows.listings
    ensures BoostInv(DropBoost(rows, p, status), now)
  {
  }

  lemma {:induction false} SetStatusKeepsInv(rows: BoostRows, p: PropertyId, status: PropertyStatus, now: int)
    requires BoostInv(rows, now) && p in rows.listings
    ensures BoostInv(SetStatus(rows, p, status), now)
  {
  }

  lemma {:induction false} AddListingKeepsInv(rows: BoostRows, p: PropertyId, owner: UserId, now: int)
    requires BoostInv(rows, now)
    ensures BoostInv(AddListing(rows, p, owner, now), now)
  {
  }

  lemma {:induction false} ReconciledSchedule(cs: seq<Campaign>, now: int)
    ensures var r := ReconciledCampaigns(cs, now);
            |r| == |cs| && forall i | 0 <= i < |cs| ::
              r[i].propertyId == cs[i].propertyId && r[i].startsAt == cs[i].startsAt && r[i].endsAt == cs[i].endsAt
  {
  }

  lemma {:induction false} SameScheduleNoGap(cs: seq<Campaign>, r: seq<Campaign>, i: nat, now: int)
    requires |r| == |cs| && i < |cs| && NoGapBefore(cs, i, now)
    requires forall i | 0 <= i < |cs| ::
               r[i].propertyId == cs[i].propertyId && r[i].startsAt == cs[i].startsAt && r[i].endsAt == cs[i].endsAt
    ensures NoGapBefore(r, i, now)
  {
    if cs[i].startsAt > now {
      var j :| 0 <= j < |cs| && cs[j].propertyId == cs[i].propertyId && cs[j].endsAt == cs[i].startsAt;
      assert r[j].propertyId == r[i].propertyId && r[j].endsAt == r[i].startsAt;
    }
  }

  lemma {:induction false} ReconciledIsSound(c: Campaign, now: int)
    requires SoundCampaign(c, now)
    ensures SoundCampaign(ReconciledCampaign(c, now), now)
  {
  }

  lemma {:induction false} ReconciledCampaignsKeepInv(cs: seq<Campaign>, now: int)
    requires CampaignsInv(cs, now)
    ensures CampaignsInv(ReconciledCampaigns(cs, now), now)
  {
    var r := ReconciledCampaigns(cs, now);
    ReconciledSchedule(cs, now);
    forall i | 0 <= i < |cs| ensures SoundCampaign(r[i], now) && NoGapBefore(r, i, now) {
      ReconciledIsSound(cs[i], now);
      SameScheduleNoGap(cs, r, i, now);
    }
    assert InOrder(r);
  }

  lemma {:induction false} ReconcileKeepsInv(rows: BoostRows, first: int, second: int)
    requires BoostInv(rows, first) && first <= second
    ensures BoostInv(Reconcile(rows, first, second), second)
  {
    TimePasses(rows, first, second);
    ReconciledCampaignsKeepInv(rows.campaigns, second);
    ReconcileKeepsFlags(rows, first, second);
  }

  lemma {:induction false} ReconcileKeepsFlags(rows: BoostRows, first: int, second: int)
    requires FlagsInv(rows)
    ensures FlagsInv(Reconcile(rows, first, second))
  {
    var cs := rows.campaigns;
    var r := Reconcile(rows, first, second);
    forall p | p in r.listings && r.listings[p].isBoosted
      ensures r.listings[p].boostedUntil.Some? && LatestCampaignEnd(r.campaigns, p, r.listings[p].boostedUntil.value)
    {
      var end := rows.listings[p].boostedUntil.value;
      assert LatestCampaignEnd(cs, p, end);
      var i :| 0 <= i < |cs| && cs[i].propertyId == p && cs[i].endsAt == end;
      assert r.campaigns[i].propertyId == p && r.campaigns[i].endsAt == end;
    }
  }

  /** After a pass a campaign is active exactly while it covers the instant, so at most one of a listing is. */
  lemma {:induction false} OneActiveAfterReconcile(rows: BoostRows, first: int, second: int)
    requires BoostInv(rows, first) && first <= second
    ensures var r := Reconcile(rows, first, second).campaigns;
            && (forall i | 0 <= i < |r| :: r[i].status == Active <==> r[i].Covers(second))
            && (forall i | 0 <= i < |r| :: r[i].status == Expired <==> r[i].endsAt <= second)
            && (forall i, j | 0 <= i < |r| && 0 <= j < |r| ::
                  r[i].propertyId == r[j].propertyId && r[i].status == Active && r[j].status == Active ==> i == j)
  {
    var cs := rows.campaigns;
    var r := Reconcile(rows, first, second).campaigns;
    forall i | 0 <= i < |r|
      ensures r[i].status == Active <==> r[i].Covers(second)
      ensures r[i].status == Expired <==> r[i].endsAt <= second
    {
      assert cs[i].endsAt == AddDays(cs[i].startsAt, cs[i].durationDays);
    }
    forall i, j | 0 <= i < j < |r| && r[i].propertyId == r[j].propertyId
      ensures !(r[i].Covers(second) && r[j].Covers(second))
    {
      assert cs[i].endsAt <= cs[j].startsAt;
    }
  }

  /** The pass takes the flag from exactly the listings whose last campaign has ended. */
  lemma {:induction false} FlagAfterReconcile(rows: BoostRows, first: int, second: int, p: PropertyId)
    requires BoostInv(rows, first) && first <= second && p in rows.listings
    ensures Reconcile(rows, first, second).listings[p].isBoosted
       <==> rows.listings[p].isBoosted && exists i | 0 <= i < |rows.campaigns| ::
              rows.campaigns[i].propertyId == p && rows.campaigns[i].endsAt > first
  {
    if rows.listings[p].isBoosted {
      assert LatestCampaignEnd(rows.campaigns, p, rows.listings[p].boostedUntil.value);
    }
  }

  /** No instant is sold twice. */
  lemma {:induction false} CampaignsNeverOverlap(rows: BoostRows, now: int, i: nat, j: nat, t: int)
    requires BoostInv(rows, now) && i < |rows.campaigns| && j < |rows.campaigns|
    requires rows.campaigns[i].propertyId == rows.campaigns[j].propertyId
    requires rows.campaigns[i].Covers(t) && rows.campaigns[j].Covers(t)
    ensures i == j
  {
  }

  /** From now until a boosted listing's flag runs out there is no gap. */
  lemma {:induction false} BoostedWithoutGap(rows: BoostRows, now: int, p: PropertyId, t: int)
    requires BoostInv(rows, now) && p in rows.listings && rows.listings[p].isBoosted
    requires now <= t < rows.listings[p].boostedUntil.value
    ensures exists i | 0 <= i < |rows.campaigns| :: rows.campaigns[i].propertyId == p && rows.campaigns[i].Covers(t)
  {
    var cs := rows.campaigns;
    var end := rows.listings[p].boostedUntil.value;
    assert LatestCampaignEnd(cs, p, end);
    var i :| 0 <= i < |cs| && cs[i].propertyId == p && cs[i].endsAt == end;
    CoveredBackwards(rows, now, i, t);
  }

  lemma {:induction false} CoveredBackwards(rows: BoostRows, now: int, i: nat, t: int)
    requires BoostInv(rows, now) && i < |rows.campaigns| && now <= t < rows.campaigns[i].endsAt
    ensures exists j | 0 <= j < |rows.campaigns| ::
              rows.campaigns[j].propertyId == rows.campaigns[i].propertyId && rows.campaigns[j].Covers(t)
  {
    var cs := rows.campaigns;
    if t < cs[i].startsAt {
      assert NoGapBefore(cs, i, now);
      var j :| 0 <= j < |cs| && cs[j].propertyId == cs[i].propertyId && cs[j].endsAt == cs[i].startsAt;
      assert cs[i].startsAt < cs[i].endsAt;
      assert j < i;
      CoveredBackwards(rows, now, j, t);
    }
  }

  // Conservation of bought time.

  function Instants(lo: int, hi: int): (r: set<int>)
    ensures forall t :: t in r <==> lo <= t < hi
    ensures |r| == if lo <= hi then hi - lo else 0
    decreases hi - lo
  {
    if hi <= lo then {} else Instants(lo, hi - 1) + {hi - 1}
  }

  /** The instants at which some campaign boosts the listing. */
  function BoostedInstants(cs: seq<Campaign>, p: PropertyId): set<int> {
    if cs == [] then {}
    else
      var c := cs[|cs| - 1];
      BoostedInstants(cs[..|cs| - 1], p) + if c.propertyId == p then Instants(c.startsAt, c.endsAt) else {}
  }

  function BoughtDays(cs: seq<Campaign>, p: PropertyId): int {
    if cs == [] then 0
    else
      var c := cs[|cs| - 1];
      BoughtDays(cs[..|cs| - 1], p) + if c.propertyId == p then c.durationDays else 0
  }

  lemma {:induction false} InstantsAreEarlier(cs: seq<Campaign>, p: PropertyId, t: int, end: int)
    requires t in BoostedInstants(cs, p)
    requires forall i | 0 <= i < |cs| :: cs[i].propertyId == p ==> cs[i].endsAt <= end
    ensures t < end
  {
    var n := |cs| - 1;
    if t in BoostedInstants(cs[..n], p) {
      InstantsAreEarlier(cs[..n], p, t, end);
    } else {
      assert cs[n].endsAt <= end;
    }
  }

  /** A listing is boosted for exactly the time bought for it. */
  lemma {:induction false} BoughtTimeIsBoostedTime(cs: seq<Campaign>, p: PropertyId)
    requires forall i | 0 <= i < |cs| ::
             cs[i].durationDays >= 1 && cs[i].endsAt == AddDays(cs[i].startsAt, cs[i].durationDays)
    requires forall i, j | 0 <= i < j < |cs| :: cs[i].propertyId == cs[j].propertyId ==> cs[i].endsAt <= cs[j].startsAt
    ensures |BoostedInstants(cs, p)| == BoughtDays(cs, p) * DAY_MS
  {
    if cs != [] {
      var n := |cs| - 1;
      var c := cs[n];
      BoughtTimeIsBoostedTime(cs[..n], p);
      if c.propertyId == p {
        var before := BoostedInstants(cs[..n], p);
        forall t | t in before
          ensures t < c.startsAt
        {
          InstantsAreEarlier(cs[..n], p, t, c.startsAt);
        }
        assert before !! Instants(c.startsAt, c.endsAt);
      }
    }
  }

  // Runs.

  datatype BoostEvent =
    | Boosted(propertyId: PropertyId, userId: UserId, payment: Option<OrderId>, days: int, at: int)
    | Reconciled(at: int, second: int)
    | Dropped(propertyId: PropertyId, status: PropertyStatus, at: int)

  predicate BoostEventsTimed(es: seq<BoostEvent>, now: int) {
    es != [] ==>
      && now <= es[0].at
      && (es[0].Boosted? ==> es[0].days >= 1)
      && (es[0].Reconciled? ==> es[0].at <= es[0].second)
      && BoostEventsTimed(es[1..], if es[0].Reconciled? then es[0].second else es[0].at)
  }

  function BoostStep(rows: BoostRows, e: BoostEvent): BoostRows {
    match e
    case Boosted(p, u, payment, days, at) =>
      if p in rows.listings then AddCampaign(rows, p, u, payment, days, at) else rows
    case Reconciled(first, second) => Reconcile(rows, first, second)
    case Dropped(p, status, _) => if p in rows.listings then DropBoost(rows, p, status) else rows
  }

  function BoostRun(rows: BoostRows, es: seq<BoostEvent>): BoostRows
    decreases |es|
  {
    if es == [] then rows else BoostRun(BoostStep(rows, es[0]), es[1..])
  }

  function BoostClock(es: seq<BoostEvent>, now: int): int {
    if es == [] then now else BoostClock(es[1..], if es[0].Reconciled? then es[0].second else es[0].at)
  }

  /** Every run keeps the queue, the flag and the bought time of every listing right. */
  lemma {:induction false} BoostRunsKeepInv(rows: BoostRows, es: seq<BoostEvent>, now: int)
    requires BoostInv(rows, now) && BoostEventsTimed(es, now)
    ensures BoostInv(BoostRun(rows, es), BoostClock(es, now))
    ensures forall p ::
              |BoostedInstants(BoostRun(rows, es).campaigns, p)| == BoughtDays(BoostRun(rows, es).campaigns, p) * DAY_MS
    decreases |es|
  {
    if es == [] {
      forall p
        ensures |BoostedInstants(rows.campaigns, p)| == BoughtDays(rows.campaigns, p) * DAY_MS
      {
        BoughtTimeIsBoostedTime(rows.campaigns, p);
      }
    } else {
      TimePasses(rows, now, es[0].at);
      match es[0] {
        case Boosted(p, u, payment, days, at) =>
          if p in rows.listings {
            AddCampaignKeepsInv(rows, p, u, payment, days, at);
          }
        case Reconciled(first, second) => ReconcileKeepsInv(rows, first, second);
        case Dropped(p, status, at) =>
          if p in rows.listings {
            DropBoostKeepsInv(rows, p, status, at);
          }
      }
      BoostRunsKeepInv(BoostStep(rows, es[0]), es[1..], if es[0].Reconciled? then es[0].second else es[0].at);
    }
  }
}
