/**
 View events, the daily rows counted alongside them, and favourites. The two hashes are taken to be
 injective, so a visitor stands for its hash, and property, visitor and half-hour for the dedupe key.
 */
module Analytics {
  import opened Wrappers
  import opened Calendar
  import CalendarDates
  import opened Boosts

  type PersonId = string

  datatype Visitor = User(id: string) | Anonymous(id: string)

  datatype Viewer = Viewer(userId: PersonId, admin: bool)

  datatype Event = Event(property: PropertyId, visitor: Visitor, boosted: bool, at: int)

  datatype Counts = Counts(
    views: nat, uniqueViews: nat, organicViews: nat, boostedViews: nat,
    favoritesAdded: nat, favoritesRemoved: nat, tenantOffers: nat, ownerOffers: nat, matches: nat)

  const ZERO := Counts(0, 0, 0, 0, 0, 0, 0, 0, 0)

  /** A row of a property and a day; the day is counted from 1970-01-01. */
  datatype Row = Row(property: PropertyId, day: int, counts: Counts)

  datatype Favorite = Favorite(tenant: PersonId, property: PropertyId)

  datatype Tables = Tables(events: seq<Event>, rows: seq<Row>, favorites: set<Favorite>)

  const WINDOW_MS := 1_800_000

  function Day(t: int): int { t / DAY_MS }
  function Bucket(t: int): int { t / WINDOW_MS }

  /** `startOfUtcDay`: the date of an instant, written back as a midnight. */
  function StartOfUtcDay(t: int): int {
    var c := CivilOf(t / DAY_MS);
    CalendarDates.DateUTC(c.year, c.month, c.date)
  }

  // ---- Daily rows ----

  function Plus(x: Counts, y: Counts): Counts {
    Counts(x.views + y.views, x.uniqueViews + y.uniqueViews, x.organicViews + y.organicViews,
      x.boostedViews + y.boostedViews,
           x.favoritesAdded + y.favoritesAdded, x.favoritesRemoved + y.favoritesRemoved,
           x.tenantOffers + y.tenantOffers, x.ownerOffers + y.ownerOffers, x.matches + y.matches)
  }

  /** `upsert` on the unique key of property and day: the increments are added to the row, or to a new row of zeros. */
  function Upsert(rows: seq<Row>, p: PropertyId, day: int, increment: Counts): seq<Row> {
    if rows == [] then [Row(p, day, Plus(ZERO, increment))]
    else if rows[0].property == p && rows[0].day == day then
      [rows[0].(counts := Plus(rows[0].counts, increment))] + rows[1..]
    else [rows[0]] + Upsert(rows[1..], p, day, increment)
  }

  /** The counts of a day; zeros where there is no row. */
  function CountsOf(rows: seq<Row>, p: PropertyId, day: int): Counts {
    if rows == [] then ZERO
    else if rows[0].property == p && rows[0].day == day then rows[0].counts
    else CountsOf(rows[1..], p, day)
  }

  /** A figure taken from the counts, over all days of a property. */
  function TotalOf(rows: seq<Row>, p: PropertyId, figure: Counts -> int): int {
    if rows == [] then 0
    else (if rows[0].property == p then figure(rows[0].counts) else 0) + TotalOf(rows[1..], p, figure)
  }

  ghost predicate Additive(figure: Counts -> int) {
    figure(ZERO) == 0 && forall x, y :: figure(Plus(x, y)) == figure(x) + figure(y)
  }

  function Views(): Counts -> int { (c: Counts) => c.views }
  function NetFavorites(): Counts -> int { (c: Counts) => c.favoritesAdded - c.favoritesRemoved }

  lemma {:induction false} CountsAfterUpsert(rows: seq<Row>, p: PropertyId, day: int, increment: Counts, q: PropertyId,
      other: int)
    ensures CountsOf(Upsert(rows, p, day, increment), q, other)
            == if q == p && other == day then Plus(CountsOf(rows, p, day), increment) else CountsOf(rows, q, other)
    decreases |rows|
  {
    var after := Upsert(rows, p, day, increment);
    if rows == [] {
      assert after[1..] == [];
    } else if rows[0].property == p && rows[0].day == day {
      assert after[1..] == rows[1..];
    } else {
      CountsAfterUpsert(rows[1..], p, day, increment, q, other);
      assert after[1..] == Upsert(rows[1..], p, day, increment);
    }
  }

  lemma {:induction false} TotalAfterUpsert(rows: seq<Row>, p: PropertyId, day: int, increment: Counts, q: PropertyId,
      figure: Counts -> int)
    requires Additive(figure)
    ensures TotalOf(Upsert(rows, p, day, increment), q, figure)
            == TotalOf(rows, q, figure) + (if q == p then figure(increment) else 0)
    decreases |rows|
  {
    var after := Upsert(rows, p, day, increment);
    if rows == [] {
      assert after[1..] == [];
    } else if rows[0].property == p && rows[0].day == day {
      assert after[1..] == rows[1..];
    } else {
      TotalAfterUpsert(rows[1..], p, day, increment, q, figure);
      assert after[1..] == Upsert(rows[1..], p, day, increment);
    }
  }

  lemma {:induction false} TotalsAfterUpsert(rows: seq<Row>, p: PropertyId, day: int, increment: Counts, q: PropertyId)
    ensures TotalOf(Upsert(rows, p, day, increment), q, Views())
            == TotalOf(rows, q, Views()) + (if q == p then increment.views else 0)
    ensures TotalOf(Upsert(rows, p, day, increment), q, NetFavorites())
            == TotalOf(rows, q, NetFavorites())
              + (if q == p then increment.favoritesAdded - increment.favoritesRemoved else 0)
  {
    TotalAfterUpsert(rows, p, day, increment, q, Views());
    TotalAfterUpsert(rows, p, day, increment, q, NetFavorites());
  }

  // ---- The calls ----

  predicate CampaignLive(campaigns: seq<Campaign>, p: PropertyId, now: int) {
    exists i | 0 <= i < |campaigns| ::
      campaigns[i].propertyId == p && campaigns[i].status.Active? && campaigns[i].Covers(now)
  }

  /** Who is counted: no bot, no admin, not the owner, and somebody who can be told apart. */
  function Counted(owner: PersonId, viewer: Option<Viewer>, visitorId: Option<string>, bot: bool): Option<Visitor> {
    if bot || (viewer.Some? && (viewer.value.admin || viewer.value.userId == owner)) then None
    else if viewer.Some? && viewer.value.userId != "" then Some(User(viewer.value.userId))
    else if visitorId.Some? && visitorId.value != "" then Some(Anonymous(visitorId.value))
    else None
  }

  predicate SameView(e: Event, p: PropertyId, v: Visitor, now: int) {
    e.property == p && e.visitor == v && Bucket(e.at) == Bucket(now)
  }

  predicate SeenToday(events: seq<Event>, p: PropertyId, v: Visitor, now: int) {
    exists i | 0 <= i < |events| :: events[i].property == p && events[i].visitor == v && Day(events[i].at) == Day(now)
  }

  predicate Duplicate(events: seq<Event>, p: PropertyId, v: Visitor, now: int) {
    exists i | 0 <= i < |events| :: SameView(events[i], p, v, now)
  }

  function ViewCounts(unique: bool, boosted: bool): Counts {
    ZERO.(views := 1, uniqueViews := if unique then 1 else 0,
          organicViews := if boosted then 0 else 1, boostedViews := if boosted then 1 else 0)
  }

  datatype Tracked = NotFound | Excluded | DuplicateView | Recorded(boosted: bool)

  /** A view of a listing that is approved (`owner` then names its owner). */
  function TrackView(s: Tables, p: PropertyId, owner: Option<PersonId>, campaigns: seq<Campaign>,
      viewer: Option<Viewer>, visitorId: Option<string>, bot: bool, now: int): (Tables, Tracked)
  {
    if owner.None? then (s, NotFound)
    else
      var visitor := Counted(owner.value, viewer, visitorId, bot);
      if visitor.None? then (s, Excluded)
      else if Duplicate(s.events, p, visitor.value, now) then (s, DuplicateView)
      else
        var boosted := CampaignLive(campaigns, p, now);
        (s.(events := s.events + [Event(p, visitor.value, boosted, now)],
            rows := Upsert(s.rows, p, Day(now), ViewCounts(!SeenToday(s.events, p, visitor.value, now), boosted))),
         Recorded(boosted))
  }

  /**
   Which views count: of an approved listing, by somebody who is no bot, no administrator and not its owner, who
   can be told apart, and who has not been counted in the same half-hour. Nothing else changes any table.
   */
  lemma {:induction false} ViewsCounted(s: Tables, p: PropertyId, owner: Option<PersonId>, campaigns: seq<Campaign>,
      viewer: Option<Viewer>, visitorId: Option<string>, bot: bool, now: int)
    ensures var (t, tracked) := TrackView(s, p, owner, campaigns, viewer, visitorId, bot, now);
            var known := viewer.Some? && viewer.value.userId != "";
            var boosted := exists i | 0 <= i < |campaigns| ::
                             && campaigns[i].propertyId == p && campaigns[i].status == Active
                             && campaigns[i].startsAt <= now < campaigns[i].endsAt;
            && (tracked.Recorded? <==>
                  && owner.Some? && !bot && (known || (visitorId.Some? && visitorId.value != ""))
                  && (viewer.Some? ==> !viewer.value.admin && viewer.value.userId != owner.value)
                  && var v := if known then User(viewer.value.userId) else Anonymous(visitorId.value);
                     forall e | e in s.events && e.property == p && e.visitor == v ::
                       e.at / 1_800_000 != now / 1_800_000)
            && (!tracked.Recorded? ==> t == s)
            && (tracked.Recorded? ==>
                  && tracked.boosted == boosted && t.favorites == s.favorites
                  && var v := if known then User(viewer.value.userId) else Anonymous(visitorId.value);
                     t.events == s.events + [Event(p, v, boosted, now)])
            && (tracked == NotFound <==> owner.None?)
  {
    forall e | e in s.events ensures exists i | 0 <= i < |s.events| :: s.events[i] == e {
    }
  }

  datatype Counter = FavoritesAdded | FavoritesRemoved | TenantOffers | OwnerOffers | Matches

  function CounterCounts(k: Counter): Counts {
    match k
    case FavoritesAdded => ZERO.(favoritesAdded := 1)
    case FavoritesRemoved => ZERO.(favoritesRemoved := 1)
    case TenantOffers => ZERO.(tenantOffers := 1)
    case OwnerOffers => ZERO.(ownerOffers := 1)
    case Matches => ZERO.(matches := 1)
  }

  function RecordCounter(s: Tables, p: PropertyId, k: Counter, now: int): Tables {
    s.(rows := Upsert(s.rows, p, Day(now), CounterCounts(k)))
  }

  function CounterOf(c: Counts, k: Counter): nat {
    match k
    case FavoritesAdded => c.favoritesAdded
    case FavoritesRemoved => c.favoritesRemoved
    case TenantOffers => c.tenantOffers
    case OwnerOffers => c.ownerOffers
    case Matches => c.matches
  }

  /** One counter of the present day goes up by one, and nothing else of any day moves. */
  lemma {:induction false} OneCounterUp(s: Tables, p: PropertyId, k: Counter, now: int, q: PropertyId, day: int,
      j: Counter)
    ensures var before, after := CountsOf(s.rows, q, day), CountsOf(RecordCounter(s, p, k, now).rows, q, day);
            && CounterOf(after, j) == CounterOf(before, j) + (if q == p && day == Day(now) && j == k then 1 else 0)
            && after.views == before.views && after.uniqueViews == before.uniqueViews
            && after.organicViews == before.organicViews && after.boostedViews == before.boostedViews
  {
    CountsAfterUpsert(s.rows, p, Day(now), CounterCounts(k), q, day);
  }

  /** A favourite of a listing that exists is created and counted once; `found` says whether it does. */
  function AddFavorite(s: Tables, tenant: PersonId, p: PropertyId, found: bool, now: int): (Tables, bool) {
    if !found then (s, false)
    else if Favorite(tenant, p) in s.favorites then (s, true)
    else (RecordCounter(s.(favorites := s.favorites + {Favorite(tenant, p)}), p, FavoritesAdded, now), true)
  }

  function RemoveFavorite(s: Tables, tenant: PersonId, p: PropertyId, now: int): Tables {
    if Favorite(tenant, p) !in s.favorites then s
    else RecordCounter(s.(favorites := s.favorites - {Favorite(tenant, p)}), p, FavoritesRemoved, now)
  }

  datatype Call =
    | View(property: PropertyId, owner: Option<PersonId>, campaigns: seq<Campaign>, viewer: Option<Viewer>,
        visitorId: Option<string>, bot: bool)
    | Count(counted: PropertyId, counter: Counter)
    | Add(tenant: PersonId, liked: PropertyId, found: bool)
    | Remove(formerly: PersonId, disliked: PropertyId)

  /** Counters that only the favourites service records. */
  predicate OfFavorites(k: Counter) {
    k.FavoritesAdded? || k.FavoritesRemoved?
  }

  function Do(s: Tables, call: Call, now: int): Tables {
    match call
    case View(p, owner, campaigns, viewer, visitorId, bot) =>
      TrackView(s, p, owner, campaigns, viewer, visitorId, bot, now).0
    case Count(p, k) => if OfFavorites(k) then s else RecordCounter(s, p, k, now)
    case Add(tenant, p, found) => AddFavorite(s, tenant, p, found, now).0
    case Remove(tenant, p) => RemoveFavorite(s, tenant, p, now)
  }

  datatype Turn = Turn(call: Call, now: int)

  function Run(s: Tables, turns: seq<Turn>): Tables
    decreases |turns|
  {
    if turns == [] then s else Run(Do(s, turns[0].call, turns[0].now), turns[1..])
  }

  const EMPTY := Tables([], [], {})

  // ---- The log, counted afresh ----

  predicate OnDay(e: Event, p: PropertyId, day: int) { e.property == p && Day(e.at) == day }

  function Occurrences(events: seq<Event>, p: PropertyId, day: int): nat {
    if events == [] then 0
    else Occurrences(events[..|events| - 1], p, day) + (if OnDay(events[|events| - 1], p, day) then 1 else 0)
  }

  function BoostedOccurrences(events: seq<Event>, p: PropertyId, day: int): nat {
    if events == [] then 0
    else
      var e := events[|events| - 1];
      BoostedOccurrences(events[..|events| - 1], p, day) + (if OnDay(e, p, day) && e.boosted then 1 else 0)
  }

  function Visitors(events: seq<Event>, p: PropertyId, day: int): set<Visitor> {
    set i | 0 <= i < |events| && OnDay(events[i], p, day) :: events[i].visitor
  }

  function AllOccurrences(events: seq<Event>, p: PropertyId): nat {
    if events == [] then 0
    else AllOccurrences(events[..|events| - 1], p) + (if events[|events| - 1].property == p then 1 else 0)
  }

  function Admirers(favorites: set<Favorite>, p: PropertyId): set<Favorite> {
    set f | f in favorites && f.property == p
  }

  /** The day's row says what the log says. */
  ghost predicate DayAgrees(s: Tables, p: PropertyId, day: int) {
    var c := CountsOf(s.rows, p, day);
    && c.views == Occurrences(s.events, p, day)
    && c.boostedViews == BoostedOccurrences(s.events, p, day)
    && c.organicViews + c.boostedViews == c.views
    && c.uniqueViews == |Visitors(s.events, p, day)|
  }

  ghost predicate TotalsAgree(s: Tables, p: PropertyId) {
    && TotalOf(s.rows, p, Views()) == AllOccurrences(s.events, p)
    && TotalOf(s.rows, p, NetFavorites()) == |Admirers(s.favorites, p)|
  }

  ghost predicate DistinctViews(events: seq<Event>) {
    forall i, j | 0 <= i < j < |events| :: !SameView(events[i], events[j].property, events[j].visitor, events[j].at)
  }

  ghost predicate AnalyticsInv(s: Tables) {
    && DistinctViews(s.events)
    && (forall p, day :: DayAgrees(s, p, day))
    && (forall p :: TotalsAgree(s, p))
  }

  lemma {:induction false} EmptyTablesSatisfyInv()
    ensures AnalyticsInv(EMPTY)
  {
  }

  // ---- Each call keeps the rows in step ----

  lemma {:induction false} VisitorsGrow(events: seq<Event>, e: Event, p: PropertyId, day: int)
    ensures Visitors(events + [e], p, day) == Visitors(events, p, day) + (if OnDay(e, p, day) then {e.visitor} else {})
  {
    var after := events + [e];
    assert after[|events|] == e && forall i | 0 <= i < |events| :: after[i] == events[i];
    forall v | v in Visitors(events, p, day) ensures v in Visitors(after, p, day) {
      var i :| 0 <= i < |events| && OnDay(events[i], p, day) && events[i].visitor == v;
      assert OnDay(after[i], p, day);
    }
  }

  lemma {:induction false} SeenTodayIsVisitor(events: seq<Event>, p: PropertyId, v: Visitor, now: int)
    ensures SeenToday(events, p, v, now) <==> v in Visitors(events, p, Day(now))
  {
    if SeenToday(events, p, v, now) {
      var i :| 0 <= i < |events| && events[i].property == p && events[i].visitor == v && Day(events[i].at) == Day(now);
      assert OnDay(events[i], p, Day(now));
    }
    if v in Visitors(events, p, Day(now)) {
      var i :| 0 <= i < |events| && OnDay(events[i], p, Day(now)) && events[i].visitor == v;
      assert events[i].property == p;
    }
  }

  /** The tables after a view is recorded. */
  function WithView(s: Tables, e: Event): Tables {
    s.(events := s.events + [e],
       rows := Upsert(s.rows, e.property, Day(e.at),
         ViewCounts(!SeenToday(s.events, e.property, e.visitor, e.at), e.boosted)))
  }

  lemma {:induction false} OccurrencesGrow(events: seq<Event>, e: Event, p: PropertyId, day: int)
    ensures Occurrences(events + [e], p, day) == Occurrences(events, p, day) + (if OnDay(e, p, day) then 1 else 0)
    ensures BoostedOccurrences(events + [e], p, day)
            == BoostedOccurrences(events, p, day) + (if OnDay(e, p, day) && e.boosted then 1 else 0)
    ensures AllOccurrences(events + [e], p) == AllOccurrences(events, p) + (if e.property == p then 1 else 0)
  {
    var after := events + [e];
    assert after[..|after| - 1] == events && after[|after| - 1] == e;
  }

  lemma {:induction false} CountOfVisitorsGrows(events: seq<Event>, e: Event, p: PropertyId, day: int)
    ensures |Visitors(events + [e], p, day)| == |Visitors(events, p, day)|
            + (if OnDay(e, p, day) && !SeenToday(events, e.property, e.visitor, e.at) then 1 else 0)
  {
    VisitorsGrow(events, e, p, day);
    SeenTodayIsVisitor(events, e.property, e.visitor, e.at);
    if OnDay(e, p, day) && e.visitor in Visitors(events, p, day) {
      assert Visitors(events, p, day) + {e.visitor} == Visitors(events, p, day);
    }
  }

  lemma {:induction false} ViewKeepsDay(s: Tables, e: Event, p: PropertyId, day: int)
    requires DayAgrees(s, p, day)
    ensures DayAgrees(WithView(s, e), p, day)
  {
    OccurrencesGrow(s.events, e, p, day);
    CountOfVisitorsGrows(s.events, e, p, day);
    CountsAfterUpsert(s.rows, e.property, Day(e.at),
                      ViewCounts(!SeenToday(s.events, e.property, e.visitor, e.at), e.boosted), p, day);
  }

  lemma {:induction false} ViewKeepsTotals(s: Tables, e: Event, p: PropertyId)
    requires TotalsAgree(s, p)
    ensures TotalsAgree(WithView(s, e), p)
  {
    OccurrencesGrow(s.events, e, p, 0);
    TotalsAfterUpsert(s.rows, e.property, Day(e.at),
                      ViewCounts(!SeenToday(s.events, e.property, e.visitor, e.at), e.boosted), p);
  }

  lemma {:induction false} ViewKeepsInv(s: Tables, e: Event)
    requires AnalyticsInv(s) && !Duplicate(s.events, e.property, e.visitor, e.at)
    ensures AnalyticsInv(WithView(s, e))
  {
    var t := WithView(s, e);
    forall p, day ensures DayAgrees(t, p, day) {
      ViewKeepsDay(s, e, p, day);
    }
    forall p ensures TotalsAgree(t, p) {
      ViewKeepsTotals(s, e, p);
    }
    assert t.events[|s.events|] == e && forall i | 0 <= i < |s.events| :: t.events[i] == s.events[i];
  }

  /** Counters that are no views leave every day's views as they are. */
  lemma {:induction false} CounterKeepsDays(s: Tables, t: Tables, p: PropertyId, increment: Counts, now: int)
    requires forall q, day :: DayAgrees(s, q, day)
    requires t.events == s.events && t.rows == Upsert(s.rows, p, Day(now), increment)
    requires increment.views == increment.uniqueViews == increment.organicViews == increment.boostedViews == 0
    ensures forall q, day :: DayAgrees(t, q, day)
  {
    forall q, day ensures DayAgrees(t, q, day) {
      assert DayAgrees(s, q, day);
      CountsAfterUpsert(s.rows, p, Day(now), increment, q, day);
    }
  }

  lemma {:induction false} CountKeepsInv(s: Tables, p: PropertyId, k: Counter, now: int)
    requires AnalyticsInv(s) && !OfFavorites(k)
    ensures AnalyticsInv(RecordCounter(s, p, k, now))
  {
    var t := RecordCounter(s, p, k, now);
    CounterKeepsDays(s, t, p, CounterCounts(k), now);
    forall q ensures TotalsAgree(t, q) {
      assert TotalsAgree(s, q);
      TotalsAfterUpsert(s.rows, p, Day(now), CounterCounts(k), q);
    }
  }

  lemma {:induction false} FavoritesKeepTotals(s: Tables, t: Tables, f: Favorite, added: bool, now: int, q: PropertyId)
    requires TotalsAgree(s, q) && t.events == s.events
    requires t.rows == Upsert(s.rows, f.property, Day(now),
             if added then ZERO.(favoritesAdded := 1) else ZERO.(favoritesRemoved := 1))
    requires if added then f !in s.favorites && t.favorites == s.favorites + {f}
             else f in s.favorites && t.favorites == s.favorites - {f}
    ensures TotalsAgree(t, q)
  {
    TotalsAfterUpsert(s.rows, f.property, Day(now),
      if added then ZERO.(favoritesAdded := 1) else ZERO.(favoritesRemoved := 1), q);
    if added {
      AdmirersGrow(s.favorites, f, q);
    } else {
      AdmirersGrow(t.favorites, f, q);
      assert t.favorites + {f} == s.favorites;
    }
  }

  lemma {:induction false} AdmirersGrow(favorites: set<Favorite>, f: Favorite, q: PropertyId)
    requires f !in favorites
    ensures |Admirers(favorites + {f}, q)| == |Admirers(favorites, q)| + (if f.property == q then 1 else 0)
  {
    assert Admirers(favorites + {f}, q) == Admirers(favorites, q) + (if f.property == q then {f} else {});
  }

  lemma {:induction false} AddKeepsInv(s: Tables, tenant: PersonId, p: PropertyId, found: bool, now: int)
    requires AnalyticsInv(s)
    ensures AnalyticsInv(AddFavorite(s, tenant, p, found, now).0)
  {
    var f := Favorite(tenant, p);
    var t := AddFavorite(s, tenant, p, found, now).0;
    if found && f !in s.favorites {
      CounterKeepsDays(s, t, p, ZERO.(favoritesAdded := 1), now);
      forall q ensures TotalsAgree(t, q) {
        assert TotalsAgree(s, q);
        FavoritesKeepTotals(s, t, f, true, now, q);
      }
    }
  }

  lemma {:induction false} RemoveKeepsInv(s: Tables, tenant: PersonId, p: PropertyId, now: int)
    requires AnalyticsInv(s)
    ensures AnalyticsInv(RemoveFavorite(s, tenant, p, now))
  {
    var f := Favorite(tenant, p);
    var t := RemoveFavorite(s, tenant, p, now);
    if f in s.favorites {
      CounterKeepsDays(s, t, p, ZERO.(favoritesRemoved := 1), now);
      forall q ensures TotalsAgree(t, q) {
        assert TotalsAgree(s, q);
        FavoritesKeepTotals(s, t, f, false, now, q);
      }
    }
  }

  lemma {:induction false} CallKeepsInv(s: Tables, call: Call, now: int)
    requires AnalyticsInv(s)
    ensures AnalyticsInv(Do(s, call, now))
  {
    match call
    case View(p, owner, campaigns, viewer, visitorId, bot) =>
      if owner.Some? {
        var visitor := Counted(owner.value, viewer, visitorId, bot);
        if visitor.Some? && !Duplicate(s.events, p, visitor.value, now) {
          ViewKeepsInv(s, Event(p, visitor.value, CampaignLive(campaigns, p, now), now));
        }
      }
    case Count(p, k) => if !OfFavorites(k) { CountKeepsInv(s, p, k, now); }
    case Add(tenant, p, found) => AddKeepsInv(s, tenant, p, found, now);
    case Remove(tenant, p) => RemoveKeepsInv(s, tenant, p, now);
  }

  lemma {:induction false} RunsKeepInv(s: Tables, turns: seq<Turn>)
    requires AnalyticsInv(s)
    ensures AnalyticsInv(Run(s, turns))
    decreases |turns|
  {
    if turns != [] {
      CallKeepsInv(s, turns[0].call, turns[0].now);
      RunsKeepInv(Do(s, turns[0].call, turns[0].now), turns[1..]);
    }
  }

  // ---- Views and visitors of a day ----

  lemma {:induction false} VisitorsAtMostViews(events: seq<Event>, p: PropertyId, day: int)
    ensures |Visitors(events, p, day)| <= Occurrences(events, p, day)
    decreases |events|
  {
    if events != [] {
      var n := |events| - 1;
      assert events == events[..n] + [events[n]];
      VisitorsAtMostViews(events[..n], p, day);
      VisitorsGrow(events[..n], events[n], p, day);
    }
  }

  /** The half-hours of a day: 48 of them, and no other reaches into the day. */
  lemma {:induction false} WindowsTileTheDay(t: int)
    ensures Day(t) * 48 <= Bucket(t) < Day(t) * 48 + 48
  {
    assert DAY_MS == 48 * WINDOW_MS;
    assert Bucket(t) * WINDOW_MS <= t < Bucket(t) * WINDOW_MS + WINDOW_MS;
    assert Day(t) * DAY_MS <= t < Day(t) * DAY_MS + DAY_MS;
  }

  /** Each visitor in each half-hour of a day. */
  function Slots(visitors: set<Visitor>, day: int, n: nat): set<(Visitor, int)> {
    set v, b | v in visitors && day * 48 <= b < day * 48 + n :: (v, b)
  }

  lemma {:induction false} CountSlots(visitors: set<Visitor>, day: int, n: nat)
    ensures |Slots(visitors, day, n)| == |visitors| * n
    decreases n
  {
    if n == 0 {
      assert Slots(visitors, day, 0) == {};
    } else {
      CountSlots(visitors, day, n - 1);
      var last := Pairs(visitors, day * 48 + n - 1);
      CountPairs(visitors, day * 48 + n - 1);
      assert Slots(visitors, day, n) == Slots(visitors, day, n - 1) + last;
      assert Slots(visitors, day, n - 1) !! last;
      assert |Slots(visitors, day, n)| == |Slots(visitors, day, n - 1)| + |visitors|;
      assert |visitors| * n == |visitors| * (n - 1) + |visitors|;
    }
  }

  function Pairs(visitors: set<Visitor>, b: int): set<(Visitor, int)> {
    set v | v in visitors :: (v, b)
  }

  lemma {:induction false} CountPairs(visitors: set<Visitor>, b: int)
    ensures |Pairs(visitors, b)| == |visitors|
    decreases |visitors|
  {
    if visitors == {} {
      assert Pairs(visitors, b) == {};
    } else {
      var v :| v in visitors;
      CountPairs(visitors - {v}, b);
      assert Pairs(visitors, b) == Pairs(visitors - {v}, b) + {(v, b)};
    }
  }

  function SlotsUsed(events: seq<Event>, p: PropertyId, day: int): set<(Visitor, int)> {
    set i | 0 <= i < |events| && OnDay(events[i], p, day) :: (events[i].visitor, Bucket(events[i].at))
  }

  lemma {:induction false} SlotsGrow(events: seq<Event>, e: Event, p: PropertyId, day: int)
    ensures SlotsUsed(events + [e], p, day)
            == SlotsUsed(events, p, day) + (if OnDay(e, p, day) then {(e.visitor, Bucket(e.at))} else {})
  {
    var after := events + [e];
    assert after[|events|] == e && forall i | 0 <= i < |events| :: after[i] == events[i];
    forall x | x in SlotsUsed(events, p, day) ensures x in SlotsUsed(after, p, day) {
      var i :| 0 <= i < |events| && OnDay(events[i], p, day) && (events[i].visitor, Bucket(events[i].at)) == x;
      assert OnDay(after[i], p, day);
    }
  }

  /** The dedupe key keeps two views out of one slot. */
  lemma {:induction false} OneViewASlot(events: seq<Event>, p: PropertyId, day: int)
    requires DistinctViews(events)
    ensures Occurrences(events, p, day) == |SlotsUsed(events, p, day)|
    decreases |events|
  {
    if events != [] {
      var n := |events| - 1;
      var rest, e := events[..n], events[n];
      assert events == rest + [e];
      OneViewASlot(rest, p, day);
      SlotsGrow(rest, e, p, day);
      if OnDay(e, p, day) {
        assert forall i | 0 <= i < n :: !SameView(events[i], e.property, e.visitor, e.at) && rest[i] == events[i];
        assert (e.visitor, Bucket(e.at)) !in SlotsUsed(rest, p, day);
      }
    }
  }

  lemma {:induction false} SubsetCount<T>(x: set<T>, y: set<T>)
    requires x <= y
    ensures |x| <= |y|
  {
    assert y == x + (y - x);
  }

  lemma {:induction false} ViewsAtMostSlots(events: seq<Event>, p: PropertyId, day: int)
    requires DistinctViews(events)
    ensures Occurrences(events, p, day) <= 48 * |Visitors(events, p, day)|
  {
    var visitors := Visitors(events, p, day);
    OneViewASlot(events, p, day);
    CountSlots(visitors, day, 48);
    forall x | x in SlotsUsed(events, p, day) ensures x in Slots(visitors, day, 48) {
      var i :| 0 <= i < |events| && OnDay(events[i], p, day) && (events[i].visitor, Bucket(events[i].at)) == x;
      WindowsTileTheDay(events[i].at);
      assert x.0 in visitors;
    }
    SubsetCount(SlotsUsed(events, p, day), Slots(visitors, day, 48));
  }

  /**
   After any run: every day's row has the views of that day in the log, organic and boosted together,
   and the distinct visitors; of these there is at least one per 48 views.
   */
  lemma {:induction false} DailyRowsAgreeWithLog(turns: seq<Turn>, p: PropertyId, day: int)
    ensures var s := Run(EMPTY, turns);
            var c := CountsOf(s.rows, p, day);
            && c.views == Occurrences(s.events, p, day) && c.organicViews + c.boostedViews == c.views
            && c.boostedViews == BoostedOccurrences(s.events, p, day)
            && c.uniqueViews == |Visitors(s.events, p, day)|
            && c.uniqueViews <= c.views <= 48 * c.uniqueViews
  {
    EmptyTablesSatisfyInv();
    RunsKeepInv(EMPTY, turns);
    var s := Run(EMPTY, turns);
    assert DayAgrees(s, p, day);
    VisitorsAtMostViews(s.events, p, day);
    ViewsAtMostSlots(s.events, p, day);
  }

  /**
   After any run the days of a listing add up to its views in the log,
   and its favourites added less those removed to the favourites it has.
   */
  lemma {:induction false} DaysAddUp(turns: seq<Turn>, p: PropertyId)
    ensures var s := Run(EMPTY, turns);
            && TotalOf(s.rows, p, Views()) == AllOccurrences(s.events, p)
            && TotalOf(s.rows, p, NetFavorites()) == |Admirers(s.favorites, p)|
  {
    EmptyTablesSatisfyInv();
    RunsKeepInv(EMPTY, turns);
    assert TotalsAgree(Run(EMPTY, turns), p);
  }

  /**
   The date of an instant written back is the midnight before
   it, except in the years 0 to 99, which `Date.UTC` moves.
   */
  lemma {:induction false} StartOfUtcDayIsMidnight(t: int)
    ensures StartOfUtcDay(t) == Day(t) * DAY_MS <==> !(0 <= CivilOf(t / DAY_MS).year <= 99)
    ensures Day(t) * DAY_MS <= t < Day(t) * DAY_MS + DAY_MS
  {
    var c := CivilOf(t / DAY_MS);
    CalendarDates.MakeDayOfRealDate(c);
    if 0 <= c.year <= 99 {
      CalendarDates.LateYears(1900 + c.year, c.month, c.date);
      assert CivilOf(MakeDay(1900 + c.year, c.month, c.date)) != c;
    }
  }

}
