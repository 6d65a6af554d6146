/** The analytics and favourites services over their tables. */
module AnalyticsServices {
  import opened Wrappers
  import opened Boosts
  import opened Analytics

  class AnalyticsDatabase {
    var events: seq<Event>
    var rows: seq<Row>
    var favorites: set<Favorite>

    ghost function Tables(): Analytics.Tables
      reads this
    {
      Analytics.Tables(events, rows, favorites)
    }
  }

  lemma {:induction false} CallKeeps(s: Analytics.Tables, call: Call, now: int)
    ensures AnalyticsInv(s) ==> AnalyticsInv(Do(s, call, now))
  {
    if AnalyticsInv(s) {
      CallKeepsInv(s, call, now);
    }
  }

  class PropertyAnalyticsService {
    const db: AnalyticsDatabase

    constructor (db: AnalyticsDatabase)
      ensures this.db == db
    {
      this.db := db;
    }

    method TrackView(propertyId: PropertyId, owner: Option<PersonId>, campaigns: seq<Campaign>, viewer: Option<Viewer>,
                     visitorId: Option<string>, bot: bool, now: int) returns (tracked: Tracked)
      modifies db`events, db`rows
      ensures (db.Tables(), tracked)
              == Analytics.TrackView(old(db.Tables()), propertyId, owner, campaigns, viewer, visitorId, bot, now)
      ensures AnalyticsInv(old(db.Tables())) ==> AnalyticsInv(db.Tables())
    {
      CallKeeps(db.Tables(), View(propertyId, owner, campaigns, viewer, visitorId, bot), now);
      if owner.None? {
        return NotFound;
      }
      var excluded := bot || (viewer.Some? && viewer.value.admin)
        || (viewer.Some? && viewer.value.userId == owner.value);
      var named := viewer.Some? && viewer.value.userId != "";
      if excluded || (!named && (visitorId.None? || visitorId.value == "")) {
        return Excluded;
      }
      var visitor := if named then User(viewer.value.userId) else Anonymous(visitorId.value);
      var boosted := CampaignLive(campaigns, propertyId, now);
      var uniqueToday := !SeenToday(db.events, propertyId, visitor, now);
      if Duplicate(db.events, propertyId, visitor, now) {
        return DuplicateView;
      }
      db.events := db.events + [Event(propertyId, visitor, boosted, now)];
      db.rows := Upsert(db.rows, propertyId, Day(now), ViewCounts(uniqueToday, boosted));
      tracked := Recorded(boosted);
    }

    method RecordCounter(propertyId: PropertyId, counter: Counter, now: int)
      modifies db`rows
      ensures db.Tables() == Analytics.RecordCounter(old(db.Tables()), propertyId, counter, now)
      ensures forall q, day, k ::
                CounterOf(CountsOf(db.rows, q, day), k) ==
                CounterOf(CountsOf(old(db.rows), q, day), k)
                + (if q == propertyId && day == Day(now) && k == counter then 1 else 0)
      ensures !OfFavorites(counter) && AnalyticsInv(old(db.Tables())) ==> AnalyticsInv(db.Tables())
    {
      CallKeeps(db.Tables(), Count(propertyId, counter), now);
      forall q, day, k
        ensures CounterOf(CountsOf(Analytics.RecordCounter(db.Tables(), propertyId, counter, now).rows, q, day), k) ==
                CounterOf(CountsOf(db.rows, q, day), k)
                + (if q == propertyId && day == Day(now) && k == counter then 1 else 0)
      {
        OneCounterUp(db.Tables(), propertyId, counter, now, q, day, k);
      }
      db.rows := Upsert(db.rows, propertyId, Day(now), CounterCounts(counter));
    }
  }

  class FavoritesService {
    const db: AnalyticsDatabase
    const analytics: PropertyAnalyticsService

    constructor (db: AnalyticsDatabase, analytics: PropertyAnalyticsService)
      requires analytics.db == db
      ensures this.db == db && this.analytics == analytics
    {
      this.db := db;
      this.analytics := analytics;
    }

    method AddFavorite(tenantId: PersonId, propertyId: PropertyId, found: bool, now: int) returns (added: bool)
      requires analytics.db == db
      modifies db`favorites, db`rows
      ensures (db.Tables(), added) == Analytics.AddFavorite(old(db.Tables()), tenantId, propertyId, found, now)
      ensures AnalyticsInv(old(db.Tables())) ==> AnalyticsInv(db.Tables())
    {
      CallKeeps(db.Tables(), Add(tenantId, propertyId, found), now);
      if !found {
        return false;
      }
      if Favorite(tenantId, propertyId) !in db.favorites {
        db.favorites := db.favorites + {Favorite(tenantId, propertyId)};
        analytics.RecordCounter(propertyId, FavoritesAdded, now);
      }
      added := true;
    }

    method RemoveFavorite(tenantId: PersonId, propertyId: PropertyId, now: int)
      requires analytics.db == db
      modifies db`favorites, db`rows
      ensures db.Tables() == Analytics.RemoveFavorite(old(db.Tables()), tenantId, propertyId, now)
      ensures AnalyticsInv(old(db.Tables())) ==> AnalyticsInv(db.Tables())
    {
      CallKeeps(db.Tables(), Remove(tenantId, propertyId), now);
      if Favorite(tenantId, propertyId) in db.favorites {
        db.favorites := db.favorites - {Favorite(tenantId, propertyId)};
        analytics.RecordCounter(propertyId, FavoritesRemoved, now);
      }
    }
  }
}
