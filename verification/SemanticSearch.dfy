/**
 The search by meaning: nearest vectors and exact listings, merged, filtered by what the query says
 explicitly, ranked and cut. The table is a sequence of rows with distinct ids, in the order queries return them.
 */
module SemanticSearch {
  import opened Wrappers
  import opened JsText
  import opened SemanticReasons
  import opened StableSort

  datatype Property = Property(
    id: string, approved: bool, facts: Facts, rentAmount: real, isBoosted: bool, title: string,
    description: Option<string>)

  /** An answer of the vector store; `None` for a distance that is no finite number. */
  datatype VectorMatch = VectorMatch(propertyId: string, vectorId: string, distance: Option<real>)

  datatype Ranked = Ranked(propertyId: string, similarity: real)

  datatype Item = Item(property: Property, similarity: real)

  /** What the query says explicitly. */
  datatype Wishes = Wishes(furnishing: Option<bool>, propertyType: Option<PropertyType>, bedrooms: Option<nat>,
      rent: Option<nat>)

  /** A search text together with what it is understood to say; `located` tells the places it mentions. */
  datatype Query = Query(text: string, wishes: Wishes, located: Place -> bool, limit: nat, minSimilarity: real)

  function Understood(l: Language, text: string, limit: nat, minSimilarity: real): Query {
    Query(text,
          Wishes(DetectFurnishingPreference(l, text), DetectPropertyTypePreference(l, text),
                 RequestedBedroomCount(l, text), RequestedMaximumRent(l, text)),
          place => PropertyLocationMatches(l, text, place), limit, minSimilarity)
  }

  predicate Located(q: Query, p: Property) {
    q.located(p.facts.place)
  }

  // ---- The vector half ----

  /** `toFixed(4)`: four decimals, halves away from zero. */
  function ToFixed4(x: real): real {
    if x < 0.0 then -((-x * 10000.0 + 0.5).Floor as real / 10000.0) else (x * 10000.0 + 0.5).Floor as real / 10000.0
  }

  predicate Usable(m: VectorMatch) {
    m.propertyId != "" && m.vectorId == "property:" + m.propertyId && m.distance.Some?
      && -1.0 <= 1.0 - m.distance.value <= 1.0
  }

  /** The usable matches, each property once, at its first place. */
  function Kept(matches: seq<VectorMatch>): seq<Ranked> {
    if matches == [] then []
    else
      var before := Kept(matches[..|matches| - 1]);
      var m := matches[|matches| - 1];
      if Usable(m) && m.propertyId !in Ids(before) then
        before + [Ranked(m.propertyId, ToFixed4(1.0 - m.distance.value))]
      else before
  }

  function Ids(ranked: seq<Ranked>): set<string> {
    set r | r in ranked :: r.propertyId
  }

  method CollectMatches(matches: seq<VectorMatch>) returns (kept: seq<Ranked>, seenIds: set<string>)
    ensures kept == Kept(matches) && seenIds == Ids(kept)
    ensures DistinctBy(kept, (r: Ranked) => r.propertyId)
  {
    kept, seenIds := [], {};
    for i := 0 to |matches|
      invariant kept == Kept(matches[..i]) && seenIds == Ids(kept)
      invariant DistinctBy(kept, (r: Ranked) => r.propertyId)
    {
      assert matches[..i + 1][..i] == matches[..i];
      if !Usable(matches[i]) || matches[i].propertyId in seenIds {
        continue;
      }
      seenIds := seenIds + {matches[i].propertyId};
      kept := kept + [Ranked(matches[i].propertyId, ToFixed4(1.0 - matches[i].distance.value))];
    }
    assert matches[..|matches|] == matches;
  }

  lemma {:induction false} KeptIsDistinct(matches: seq<VectorMatch>)
    ensures DistinctBy(Kept(matches), (r: Ranked) => r.propertyId)
    decreases |matches|
  {
    if matches != [] {
      KeptIsDistinct(matches[..|matches| - 1]);
    }
  }

  // ---- The exact half ----

  predicate MeetsFacts(w: Wishes, p: Property) {
    && (w.furnishing.Some? ==> p.facts.isFurnished == w.furnishing.value)
    && (w.propertyType.Some? ==> p.facts.propertyType == w.propertyType.value)
  }

  predicate MeetsNumbers(w: Wishes, p: Property) {
    && (w.bedrooms.Some? ==> p.facts.bedrooms >= w.bedrooms.value)
    && (w.rent.Some? ==> p.rentAmount <= w.rent.value as real)
  }

  function MatchedPlaces(q: Query, table: seq<Property>): seq<Property> {
    Filter(table, (p: Property) => p.approved && Located(q, p))
  }

  /** In a city, named in either language, or a district of some listing that the query locates. */
  predicate InMatchedPlace(matched: seq<Property>, p: Property) {
    || (exists m :: m in matched && SameCityName(m, p))
    || (exists m :: m in matched && m.facts.place.district == p.facts.place.district)
  }

  predicate SameCityName(m: Property, p: Property) {
    && m.facts.place.city.Some? && p.facts.place.city.Some?
    && var c := m.facts.place.city.value; var d := p.facts.place.city.value;
       (c.nameAr != "" && c.nameAr == d.nameAr) || (c.nameEn != "" && c.nameEn == d.nameEn)
  }

  predicate Restrictive(w: Wishes, matched: seq<Property>) {
    w.furnishing.Some? || w.bedrooms.Some? || w.rent.Some? || matched != []
  }

  function ExactProperties(q: Query, table: seq<Property>): seq<Property> {
    var w := q.wishes;
    var matched := MatchedPlaces(q, table);
    if !Restrictive(w, matched) then []
    else Filter(table, (p: Property) =>
                  p.approved && MeetsFacts(w, p) && MeetsNumbers(w, p)
                    && (matched != [] ==> InMatchedPlace(matched, p)))
  }

  /** The listings whose public text contains the query as it is. */
  function DirectProperties(q: Query, table: seq<Property>): seq<Property> {
    Filter(table, (p: Property) =>
             p.approved && (Includes(p.title, q.text)
               || Includes(if p.description.Some? then p.description.value else "", q.text)))
  }

  // ---- Merging, filtering, ranking ----

  /** The last row of each id, as a JavaScript map keeps it. */
  function ById(ps: seq<Property>): map<string, Property> {
    if ps == [] then map[] else ById(ps[..|ps| - 1])[ps[|ps| - 1].id := ps[|ps| - 1]]
  }

  function RankAll(ps: seq<Property>, similarity: real): seq<Ranked> {
    seq(|ps|, i requires 0 <= i < |ps| => Ranked(ps[i].id, similarity))
  }

  datatype Merge = Merge(ranked: seq<Ranked>, byId: map<string, Property>)

  function MergeOf(q: Query, table: seq<Property>, kept: seq<Ranked>): Merge {
    var direct := DirectProperties(q, table);
    var exact := ExactProperties(q, table);
    var seen := Ids(kept);
    if direct != [] then Merge(RankAll(direct, 1.0), ById(direct))
    else
      Merge(kept + RankAll(Filter(exact, (p: Property) => p.id !in seen), 0.0),
            ById(Filter(table, (p: Property) => p.approved && p.id in seen) + exact))
  }

  predicate Admitted(q: Query, table: seq<Property>, p: Property, similarity: real) {
    && MeetsFacts(q.wishes, p)
    && (MatchedPlaces(q, table) != [] ==> Located(q, p))
    && (p in DirectProperties(q, table) || p in ExactProperties(q, table) || similarity >= q.minSimilarity)
  }

  function ItemsOf(q: Query, table: seq<Property>, ranked: seq<Ranked>, byId: map<string, Property>): (items: seq<Item>)
    ensures |items| <= |ranked|
  {
    if ranked == [] then []
    else
      var r := ranked[0];
      (if r.propertyId in byId && Admitted(q, table, byId[r.propertyId], r.similarity)
       then [Item(byId[r.propertyId], r.similarity)] else [])
      + ItemsOf(q, table, ranked[1..], byId)
  }

  predicate Before(x: Item, y: Item) {
    || (x.property.isBoosted && !y.property.isBoosted)
    || (x.property.isBoosted == y.property.isBoosted && x.similarity > y.similarity)
  }

  /** The results that could be shown, before the cut. */
  function Candidates(q: Query, table: seq<Property>, kept: seq<Ranked>): seq<Item> {
    var merge := MergeOf(q, table, kept);
    Sort(ItemsOf(q, table, merge.ranked, merge.byId), Before)
  }

  function Cut(items: seq<Item>, limit: nat): seq<Item> {
    if |items| <= limit then items else items[..limit]
  }

  /** Nothing to go by: no vector match, and nothing explicit but perhaps a place. */
  predicate LeavesEarly(q: Query, kept: seq<Ranked>) {
    kept == [] && q.wishes == Wishes(None, None, None, None)
  }

  function Results(q: Query, table: seq<Property>, kept: seq<Ranked>): seq<Item> {
    if LeavesEarly(q, kept) then [] else Cut(Candidates(q, table, kept), q.limit)
  }

  method SemanticSearch(
    l: Language, text: string, limit: nat, minSimilarity: real, table: seq<Property>, matches: seq<VectorMatch>)
    returns (items: seq<Item>)
    ensures items == Results(Understood(l, text, limit, minSimilarity), table, Kept(matches))
    ensures DistinctIds(table) ==>
              && |items| <= limit && WellRanked(items)
              && forall x | x in items :: Suits(Understood(l, text, limit, minSimilarity), table, x.property)
    ensures DistinctIds(table) ==> forall x | x in items :: AsAsked(l, text, minSimilarity, table, x)
  {
    var q := Understood(l, text, limit, minSimilarity);
    items := FindMatches(q, table, matches);
    if DistinctIds(table) {
      ResultsAreSound(q, table, matches);
      NumbersHoldUnlessNear(q, table, matches);
      PlacesExactly(q, table);
      forall x | x in items ensures AsAsked(l, text, minSimilarity, table, x) {
        DirectExactly(q, table, x.property);
      }
    }
  }

  /** What the text itself says of a result; its numbers only where it was not found by its own text or its vector. */
  ghost predicate AsAsked(l: Language, text: string, minSimilarity: real, table: seq<Property>, x: Item) {
    var p, furnishing := x.property, DetectFurnishingPreference(l, text);
    var propertyType, bedrooms := DetectPropertyTypePreference(l, text), RequestedBedroomCount(l, text);
    var rent := RequestedMaximumRent(l, text);
    && p.approved
    && (furnishing.Some? ==> p.facts.isFurnished == furnishing.value)
    && (propertyType.Some? ==> p.facts.propertyType == propertyType.value)
    && ((exists m :: m in table && m.approved && PropertyLocationMatches(l, text, m.facts.place)) ==>
          PropertyLocationMatches(l, text, p.facts.place))
    && (|| x.similarity >= minSimilarity
        || Includes(p.title, text) || (p.description.Some? && Includes(p.description.value, text))
        || (&& (bedrooms.Some? ==> bedrooms.value <= p.facts.bedrooms)
            && (rent.Some? ==> p.rentAmount <= rent.value as real)))
  }

  method FindMatches(q: Query, table: seq<Property>, matches: seq<VectorMatch>) returns (items: seq<Item>)
    ensures items == Results(q, table, Kept(matches))
  {
    var kept, seenIds := CollectMatches(matches);
    var wishes := q.wishes;
    if |kept| == 0 && wishes.furnishing.None? && wishes.propertyType.None? && wishes.bedrooms.None?
      && wishes.rent.None? {
      return [];
    }
    items := Candidates(q, table, kept);
    if |items| > q.limit {
      items := items[..q.limit];
    }
  }

  // ---- What the results are ----

  predicate FactsHold(w: Wishes, p: Property) {
    && (w.furnishing.Some? ==> p.facts.isFurnished == w.furnishing.value)
    && (w.propertyType.Some? ==> p.facts.propertyType == w.propertyType.value)
  }

  /** At least the bedrooms and at most the rent that were asked for. */
  predicate NumbersHold(w: Wishes, p: Property) {
    && (w.bedrooms.Some? ==> w.bedrooms.value <= p.facts.bedrooms)
    && (w.rent.Some? ==> w.rent.value as real >= p.rentAmount)
  }

  /** The query names a place when it locates some approved listing. */
  lemma {:induction false} PlacesExactly(q: Query, table: seq<Property>)
    ensures MatchedPlaces(q, table) != [] <==> exists p :: p in table && p.approved && q.located(p.facts.place)
  {
    if MatchedPlaces(q, table) != [] {
      assert MatchedPlaces(q, table)[0] in MatchedPlaces(q, table);
    }
    if p :| p in table && p.approved && q.located(p.facts.place) {
      assert p in MatchedPlaces(q, table);
    }
  }

  lemma {:induction false} AnyIncludesNothing(s: string, t: string)
    requires Includes("", t)
    ensures Includes(s, t)
  {
    assert t == [] && t <= s[0..];
  }

  /** The listings found by their own text: approved, with the query as it is in title or description. */
  lemma {:induction false} DirectExactly(q: Query, table: seq<Property>, p: Property)
    ensures p in DirectProperties(q, table) <==>
            && p in table && p.approved
            && (Includes(p.title, q.text) || (p.description.Some? && Includes(p.description.value, q.text)))
  {
    if p.description.None? && Includes("", q.text) {
      AnyIncludesNothing(p.title, q.text);
    }
  }

  /** What a match of the vector store must be to count. */
  predicate Counts(m: VectorMatch) {
    && m.propertyId != "" && m.vectorId == "property:" + m.propertyId
    && m.distance.Some? && 0.0 <= m.distance.value <= 2.0
  }

  /** To the fourth decimal. */
  predicate Near(x: real, y: real) {
    y - 0.00005 <= x <= y + 0.00005
  }

  lemma {:induction false} ToFixed4IsNear(x: real)
    ensures Near(ToFixed4(x), x)
  {
    var y := if x < 0.0 then -x * 10000.0 + 0.5 else x * 10000.0 + 0.5;
    assert y.Floor as real <= y < y.Floor as real + 1.0;
  }

  /** Of each listing the first match that counts is kept, with one less its distance as its similarity. */
  lemma {:induction false} KeptExactly(matches: seq<VectorMatch>, id: string)
    ensures id in Ids(Kept(matches)) <==>
            exists i | 0 <= i < |matches| :: Counts(matches[i]) && matches[i].propertyId == id
    ensures forall r | r in Kept(matches) && r.propertyId == id ::
              exists i | 0 <= i < |matches| ::
                && Counts(matches[i]) && matches[i].propertyId == id
                && Near(r.similarity, 1.0 - matches[i].distance.value)
                && forall j | 0 <= j < i :: !(Counts(matches[j]) && matches[j].propertyId == id)
    decreases |matches|
  {
    if matches != [] {
      var n := |matches| - 1;
      var m := matches[n];
      KeptExactly(matches[..n], id);
      if m.distance.Some? {
        ToFixed4IsNear(1.0 - m.distance.value);
      }
      assert Usable(m) <==> Counts(m);
      forall r | r in Kept(matches) && r.propertyId == id
        ensures exists i | 0 <= i < |matches| ::
                  && Counts(matches[i]) && matches[i].propertyId == id
                  && Near(r.similarity, 1.0 - matches[i].distance.value)
                  && forall j | 0 <= j < i :: !(Counts(matches[j]) && matches[j].propertyId == id)
      {
        if r in Kept(matches[..n]) {
          var i :| 0 <= i < n && Counts(matches[..n][i]) && matches[..n][i].propertyId == id
            && Near(r.similarity, 1.0 - matches[..n][i].distance.value)
            && forall j | 0 <= j < i :: !(Counts(matches[..n][j]) && matches[..n][j].propertyId == id);
          assert matches[i] == matches[..n][i];
        } else {
          assert m.propertyId == id && id !in Ids(Kept(matches[..n]));
          assert forall j | 0 <= j < n :: matches[j] == matches[..n][j];
          assert matches[n] == m;
        }
      }
      assert Kept(matches[..n]) <= Kept(matches);
      assert forall r | r in Kept(matches[..n]) :: r in Kept(matches);
      if Counts(m) && m.propertyId == id && id !in Ids(Kept(matches[..n])) {
        assert Kept(matches)[|Kept(matches)| - 1].propertyId == id;
        assert Kept(matches)[|Kept(matches)| - 1] in Kept(matches);
      }
    }
  }

  ghost predicate DistinctIds(table: seq<Property>) {
    DistinctBy(table, (p: Property) => p.id)
  }

  ghost predicate Sourced(table: seq<Property>, byId: map<string, Property>) {
    forall id | id in byId :: byId[id].id == id && byId[id] in table && byId[id].approved
  }

  lemma {:induction false} ByIdIsSourced(table: seq<Property>, ps: seq<Property>)
    requires forall p | p in ps :: p in table && p.approved
    ensures Sourced(table, ById(ps))
    decreases |ps|
  {
    if ps != [] {
      assert forall p | p in ps[..|ps| - 1] :: p in ps;
      ByIdIsSourced(table, ps[..|ps| - 1]);
    }
  }

  lemma {:induction false} SameIdSameRow(table: seq<Property>, p: Property, r: Property)
    requires DistinctIds(table) && p in table && r in table && p.id == r.id
    ensures p == r
  {
    var i :| 0 <= i < |table| && table[i] == p;
    var j :| 0 <= j < |table| && table[j] == r;
    var key := (p: Property) => p.id;
    assert key(table[i]) == key(table[j]);
  }

  /** With distinct ids, every row that was read is found by its id. */
  lemma {:induction false} ByIdFinds(table: seq<Property>, ps: seq<Property>, p: Property)
    requires DistinctIds(table) && (forall r | r in ps :: r in table) && p in ps
    ensures p.id in ById(ps) && ById(ps)[p.id] == p
    decreases |ps|
  {
    var n := |ps| - 1;
    var last := ps[n];
    if last.id == p.id {
      assert last in ps;
      SameIdSameRow(table, p, last);
    } else {
      assert ps == ps[..n] + [last];
      assert forall r | r in ps[..n] :: r in ps;
      ByIdFinds(table, ps[..n], p);
    }
  }

  lemma {:induction false} ItemsAreAdmitted(q: Query, table: seq<Property>, ranked: seq<Ranked>,
      byId: map<string, Property>)
    requires Sourced(table, byId)
    ensures forall x | x in ItemsOf(q, table, ranked, byId) ::
              && x.property in table && x.property.approved && Admitted(q, table, x.property, x.similarity)
              && Ranked(x.property.id, x.similarity) in ranked
    decreases |ranked|
  {
    if ranked != [] {
      ItemsAreAdmitted(q, table, ranked[1..], byId);
      assert forall r | r in ranked[1..] :: r in ranked;
    }
  }

  lemma {:induction false} ItemsAreDistinct(q: Query, table: seq<Property>, ranked: seq<Ranked>,
      byId: map<string, Property>)
    requires Sourced(table, byId) && DistinctBy(ranked, (r: Ranked) => r.propertyId)
    ensures DistinctBy(ItemsOf(q, table, ranked, byId), (x: Item) => x.property.id)
    decreases |ranked|
  {
    if ranked != [] {
      var r, rest := ranked[0], ranked[1..];
      var items := ItemsOf(q, table, rest, byId);
      assert ranked == [r] + rest;
      DistinctCons(r, rest, (r: Ranked) => r.propertyId);
      ItemsAreDistinct(q, table, rest, byId);
      ItemsAreAdmitted(q, table, rest, byId);
      if r.propertyId in byId && Admitted(q, table, byId[r.propertyId], r.similarity) {
        var x := Item(byId[r.propertyId], r.similarity);
        DistinctCons(x, items, (x: Item) => x.property.id);
        assert ItemsOf(q, table, ranked, byId) == [x] + items;
      } else {
        assert ItemsOf(q, table, ranked, byId) == items;
      }
    }
  }

  lemma {:induction false} ItemIsPresent(q: Query, table: seq<Property>, ranked: seq<Ranked>,
      byId: map<string, Property>, r: Ranked)
    requires r in ranked && r.propertyId in byId && Admitted(q, table, byId[r.propertyId], r.similarity)
    ensures Item(byId[r.propertyId], r.similarity) in ItemsOf(q, table, ranked, byId)
    decreases |ranked|
  {
    if r != ranked[0] {
      assert r in ranked[1..];
      ItemIsPresent(q, table, ranked[1..], byId, r);
    }
  }

  ghost predicate DistinctKept(kept: seq<Ranked>) {
    DistinctBy(kept, (r: Ranked) => r.propertyId)
  }

  lemma {:induction false} MergeIsSourced(q: Query, table: seq<Property>, kept: seq<Ranked>)
    ensures Sourced(table, MergeOf(q, table, kept).byId)
  {
    var direct := DirectProperties(q, table);
    if direct != [] {
      ByIdIsSourced(table, direct);
    } else {
      var seen := Ids(kept);
      ByIdIsSourced(table, Filter(table, (p: Property) => p.approved && p.id in seen) + ExactProperties(q, table));
    }
  }

  lemma {:induction false} RankAllIsDistinct(ps: seq<Property>, similarity: real)
    requires DistinctIds(ps)
    ensures DistinctKept(RankAll(ps, similarity))
  {
    var key := (p: Property) => p.id;
    forall i, j | 0 <= i < j < |ps|
      ensures RankAll(ps, similarity)[i].propertyId != RankAll(ps, similarity)[j].propertyId
    {
      assert key(ps[i]) != key(ps[j]);
    }
  }

  lemma {:induction false} ExactIsDistinct(q: Query, table: seq<Property>)
    requires DistinctIds(table)
    ensures DistinctIds(ExactProperties(q, table)) && DistinctIds(DirectProperties(q, table))
  {
    var w := q.wishes;
    var matched := MatchedPlaces(q, table);
    var key := (p: Property) => p.id;
    if Restrictive(w, matched) {
      FilterKeepsDistinct(table, (p: Property) =>
        p.approved && MeetsFacts(w, p) && MeetsNumbers(w, p) && (matched != [] ==> InMatchedPlace(matched, p)), key);
    }
    FilterKeepsDistinct(table, (p: Property) =>
      p.approved && (Includes(p.title, q.text)
        || Includes(if p.description.Some? then p.description.value else "", q.text)), key);
  }

  lemma {:induction false} DistinctTogether(kept: seq<Ranked>, more: seq<Ranked>)
    requires DistinctKept(kept) && DistinctKept(more) && (forall r | r in more :: r.propertyId !in Ids(kept))
    ensures DistinctKept(kept + more)
  {
    var all := kept + more;
    var key := (r: Ranked) => r.propertyId;
    forall i, j | 0 <= i < j < |all| ensures key(all[i]) != key(all[j]) {
      if j < |kept| {
        assert key(kept[i]) != key(kept[j]);
      } else if i >= |kept| {
        assert key(more[i - |kept|]) != key(more[j - |kept|]);
      } else {
        assert kept[i] in kept && more[j - |kept|] in more;
      }
    }
  }

  lemma {:induction false} MergeIsDistinct(q: Query, table: seq<Property>, kept: seq<Ranked>)
    requires DistinctIds(table) && DistinctKept(kept)
    ensures DistinctKept(MergeOf(q, table, kept).ranked)
  {
    ExactIsDistinct(q, table);
    if DirectProperties(q, table) != [] {
      RankAllIsDistinct(DirectProperties(q, table), 1.0);
    } else {
      var seen := Ids(kept);
      var unseen := Filter(ExactProperties(q, table), (p: Property) => p.id !in seen);
      FilterKeepsDistinct(ExactProperties(q, table), (p: Property) => p.id !in seen, (p: Property) => p.id);
      RankAllIsDistinct(unseen, 0.0);
      assert forall i | 0 <= i < |unseen| :: unseen[i] in unseen;
      DistinctTogether(kept, RankAll(unseen, 0.0));
    }
  }

  lemma {:induction false} CandidatesAreSound(q: Query, table: seq<Property>, kept: seq<Ranked>)
    requires DistinctIds(table) && DistinctKept(kept)
    ensures var c := Candidates(q, table, kept);
            && DistinctBy(c, (x: Item) => x.property.id) && Ordered(c, Before)
            && forall x | x in c ::
                 x.property in table && x.property.approved && Admitted(q, table, x.property, x.similarity)
  {
    var merge := MergeOf(q, table, kept);
    var items := ItemsOf(q, table, merge.ranked, merge.byId);
    MergeIsSourced(q, table, kept);
    MergeIsDistinct(q, table, kept);
    ItemsAreAdmitted(q, table, merge.ranked, merge.byId);
    ItemsAreDistinct(q, table, merge.ranked, merge.byId);
    SortKeepsDistinct(items, Before, (x: Item) => x.property.id);
    SortHasSame(items, Before);
    SortOrders(items, Before);
  }

  /** With no match that counts and nothing asked for but perhaps a place, the search has nothing to go by. */
  lemma {:induction false} NothingToGoBy(q: Query, table: seq<Property>, matches: seq<VectorMatch>)
    requires forall i | 0 <= i < |matches| :: !Counts(matches[i])
    requires q.wishes.furnishing.None? && q.wishes.propertyType.None? && q.wishes.bedrooms.None? && q.wishes.rent.None?
    ensures Results(q, table, Kept(matches)) == []
  {
    if Kept(matches) != [] {
      assert Kept(matches)[0].propertyId in Ids(Kept(matches));
      KeptExactly(matches, Kept(matches)[0].propertyId);
    }
  }

  /** No listing twice; boosted listings first, then the more similar. */
  ghost predicate WellRanked(items: seq<Item>) {
    forall i, j | 0 <= i < j < |items| ::
      && items[i].property.id != items[j].property.id
      && (items[j].property.isBoosted ==> items[i].property.isBoosted)
      && (items[i].property.isBoosted == items[j].property.isBoosted ==> items[i].similarity >= items[j].similarity)
  }

  /** An approved listing that is as the query says on furnishing, type and place. */
  ghost predicate Suits(q: Query, table: seq<Property>, p: Property) {
    && p in table && p.approved && FactsHold(q.wishes, p)
    && (MatchedPlaces(q, table) != [] ==> Located(q, p))
  }

  lemma {:induction false} CutKeepsRanking(c: seq<Item>, limit: nat)
    requires DistinctBy(c, (x: Item) => x.property.id) && Ordered(c, Before)
    ensures |Cut(c, limit)| <= limit && Cut(c, limit) <= c && WellRanked(Cut(c, limit))
  {
    var key := (x: Item) => x.property.id;
    var r := Cut(c, limit);
    forall i, j | 0 <= i < j < |r|
      ensures r[i].property.id != r[j].property.id
      ensures r[j].property.isBoosted ==> r[i].property.isBoosted
      ensures r[i].property.isBoosted == r[j].property.isBoosted ==> r[i].similarity >= r[j].similarity
    {
      assert key(c[i]) != key(c[j]) && !Before(c[j], c[i]);
    }
  }

  /** What is shown is well ranked, suits the query and is no more than the limit. */
  lemma {:induction false} ResultsAreSound(q: Query, table: seq<Property>, matches: seq<VectorMatch>)
    requires DistinctIds(table)
    ensures var items := Results(q, table, Kept(matches));
            |items| <= q.limit && WellRanked(items) && forall x | x in items :: Suits(q, table, x.property)
  {
    var kept := Kept(matches);
    KeptIsDistinct(matches);
    CandidatesAreSound(q, table, kept);
    var c := Candidates(q, table, kept);
    CutKeepsRanking(c, q.limit);
    forall x | x in Cut(c, q.limit) ensures Suits(q, table, x.property) {
      assert x in c;
    }
  }

  /** Bedrooms and rent hold of every result that neither comes by its own text nor is near enough by its vector. */
  lemma {:induction false} NumbersHoldUnlessNear(q: Query, table: seq<Property>, matches: seq<VectorMatch>)
    requires DistinctIds(table)
    ensures forall x | x in Results(q, table, Kept(matches)) ::
              || NumbersHold(q.wishes, x.property)
              || x.similarity >= q.minSimilarity
              || x.property in DirectProperties(q, table)
  {
    KeptIsDistinct(matches);
    CandidatesAreSound(q, table, Kept(matches));
  }

  // ---- Where the numbers hold ----

  /**
   How a listing comes in without the SQL half: by its own
   text, or where no listing does, near enough by its vector.
   */
  ghost predicate ComesUnchecked(q: Query, table: seq<Property>, kept: seq<Ranked>, p: Property) {
    if DirectProperties(q, table) != [] then p in DirectProperties(q, table)
    else exists r :: r in kept && r.propertyId == p.id && r.similarity >= q.minSimilarity
  }

  ghost predicate OffNumbers(q: Query, table: seq<Property>, kept: seq<Ranked>, p: Property) {
    p in table && Suits(q, table, p) && !NumbersHold(q.wishes, p) && ComesUnchecked(q, table, kept, p)
  }

  lemma {:induction false} ExactNumbersHold(q: Query, table: seq<Property>)
    ensures forall p | p in ExactProperties(q, table) :: NumbersHold(q.wishes, p)
  {
  }

  /** A candidate off the numbers came in unchecked. */
  lemma {:induction false} CandidateComesUnchecked(q: Query, table: seq<Property>, kept: seq<Ranked>, x: Item)
    requires DistinctIds(table) && DistinctKept(kept)
    requires x in Candidates(q, table, kept) && !NumbersHold(q.wishes, x.property)
    ensures OffNumbers(q, table, kept, x.property)
  {
    var merge := MergeOf(q, table, kept);
    var items := ItemsOf(q, table, merge.ranked, merge.byId);
    SortHasSame(items, Before);
    MergeIsSourced(q, table, kept);
    ItemsAreAdmitted(q, table, merge.ranked, merge.byId);
    ExactNumbersHold(q, table);
    var r := Ranked(x.property.id, x.similarity);
    assert r in merge.ranked;
    if DirectProperties(q, table) != [] {
      DirectIsRanked(table, DirectProperties(q, table), r, x.property);
    } else {
      var unseen := Filter(ExactProperties(q, table), (p: Property) => p.id !in Ids(kept));
      if r !in kept {
        UnseenIsExact(table, ExactProperties(q, table), unseen, r, x.property);
      }
    }
  }

  lemma {:induction false} DirectIsRanked(table: seq<Property>, ps: seq<Property>, r: Ranked, p: Property)
    requires DistinctIds(table) && p in table && (forall d | d in ps :: d in table)
    requires r in RankAll(ps, 1.0) && r.propertyId == p.id
    ensures p in ps
  {
    var i :| 0 <= i < |ps| && RankAll(ps, 1.0)[i] == r;
    assert ps[i] in ps;
    SameIdSameRow(table, p, ps[i]);
  }

  lemma {:induction false} UnseenIsExact(table: seq<Property>, exact: seq<Property>, unseen: seq<Property>, r: Ranked,
      p: Property)
    requires DistinctIds(table) && p in table && (forall e | e in exact :: e in table)
             && (forall e | e in unseen :: e in exact)
    requires r in RankAll(unseen, 0.0) && r.propertyId == p.id
    ensures p in exact
  {
    var i :| 0 <= i < |unseen| && RankAll(unseen, 0.0)[i] == r;
    assert unseen[i] in unseen;
    SameIdSameRow(table, p, unseen[i]);
  }

  /** A listing that comes in unchecked is a candidate. */
  lemma {:induction false} UncheckedIsCandidate(q: Query, table: seq<Property>, kept: seq<Ranked>, p: Property)
      returns (x: Item)
    requires DistinctIds(table) && DistinctKept(kept)
    requires p in table && Suits(q, table, p) && ComesUnchecked(q, table, kept, p)
    ensures x.property == p && x in Candidates(q, table, kept)
  {
    var merge := MergeOf(q, table, kept);
    var direct := DirectProperties(q, table);
    var r: Ranked;
    if direct != [] {
      r := Ranked(p.id, 1.0);
      var i :| 0 <= i < |direct| && direct[i] == p;
      assert RankAll(direct, 1.0)[i] == r;
      ByIdFinds(table, direct, p);
    } else {
      r :| r in kept && r.propertyId == p.id && r.similarity >= q.minSimilarity;
      var read := Filter(table, (p: Property) => p.approved && p.id in Ids(kept)) + ExactProperties(q, table);
      assert p in read;
      ByIdFinds(table, read, p);
    }
    assert r in merge.ranked && Admitted(q, table, p, r.similarity);
    ItemIsPresent(q, table, merge.ranked, merge.byId, r);
    x := Item(p, r.similarity);
    SortHasSame(ItemsOf(q, table, merge.ranked, merge.byId), Before);
  }

  /**
   Bedrooms and rent hold of every candidate if and only if no listing that suits the query otherwise and
   misses them comes in by its own text or, where none does, near enough by its vector.
   */
  lemma {:induction false} NumbersHoldExactly(q: Query, table: seq<Property>, kept: seq<Ranked>)
    requires DistinctIds(table) && DistinctKept(kept)
    ensures (forall x | x in Candidates(q, table, kept) :: NumbersHold(q.wishes, x.property))
            <==> !exists p :: OffNumbers(q, table, kept, p)
  {
    if p :| OffNumbers(q, table, kept, p) {
      var x := UncheckedIsCandidate(q, table, kept, p);
      assert !NumbersHold(q.wishes, x.property);
    }
    forall x | x in Candidates(q, table, kept) && !NumbersHold(q.wishes, x.property)
      ensures exists p :: OffNumbers(q, table, kept, p)
    {
      CandidateComesUnchecked(q, table, kept, x);
    }
  }

  lemma {:induction false} OnlyRow(p: Property)
    ensures DistinctIds([p])
  {
  }

  lemma {:induction false} KeptOfOne(id: string)
    requires id != ""
    ensures Kept([VectorMatch(id, "property:" + id, Some(0.0))]) == [Ranked(id, 1.0)]
  {
    var m := VectorMatch(id, "property:" + id, Some(0.0));
    assert [m][..0] == [] && Kept([]) == [];
    assert (1.0 * 10000.0 + 0.5).Floor == 10000;
    assert ToFixed4(1.0) == 1.0;
  }

  lemma {:induction false} FirstIsIn<T>(s: seq<T>)
    ensures s != [] ==> s[0] in s
  {
  }

  lemma {:induction false} OnlyCandidate(q: Query, p: Property)
    ensures |Candidates(q, [p], [Ranked(p.id, 1.0)])| <= 1
  {
    var merge := MergeOf(q, [p], [Ranked(p.id, 1.0)]);
    var exact := ExactProperties(q, [p]);
    var unseen := Filter(exact, (e: Property) => e.id !in Ids([Ranked(p.id, 1.0)]));
    assert p.id in Ids([Ranked(p.id, 1.0)]) by { assert Ranked(p.id, 1.0) in [Ranked(p.id, 1.0)]; }
    assert forall e | e in exact :: e == p;
    assert forall e | e in unseen :: e in exact;
    FirstIsIn(unseen);
    SortHasSame(ItemsOf(q, [p], merge.ranked, merge.byId), Before);
  }

  lemma {:induction false} SuitsAlone(q: Query, p: Property)
    requires p.approved && FactsHold(q.wishes, p)
    ensures Suits(q, [p], p)
  {
    forall m | m in MatchedPlaces(q, [p]) ensures m == p && Located(q, p) {
    }
    if MatchedPlaces(q, [p]) != [] {
      assert MatchedPlaces(q, [p])[0] in MatchedPlaces(q, [p]);
    }
  }

  /**
   Whatever numbers a query asks for, an approved listing that
   misses them is shown when its vector is that of the query.
   */
  lemma {:induction false} NearListingIsShown(q: Query, p: Property) returns (x: Item)
    requires q.limit >= 1 && q.minSimilarity <= 1.0
    requires p.id != "" && p.approved && FactsHold(q.wishes, p) && !NumbersHold(q.wishes, p)
    ensures x.property == p
    ensures DistinctIds([p]) && x in Results(q, [p], Kept([VectorMatch(p.id, "property:" + p.id, Some(0.0))]))
  {
    var r := Ranked(p.id, 1.0);
    OnlyRow(p);
    KeptOfOne(p.id);
    SuitsAlone(q, p);
    assert r in [r];
    if DirectProperties(q, [p]) != [] {
      assert DirectProperties(q, [p])[0] in DirectProperties(q, [p]);
    }
    x := UncheckedIsCandidate(q, [p], [r], p);
    OnlyCandidate(q, p);
  }

  /** For instance, one that costs 9000 when 6000 at most is asked for. */
  lemma {:induction false} RentLimitFails(q: Query, p: Property) returns (x: Item)
    requires q.wishes == Wishes(None, None, None, Some(6000)) && q.limit >= 1 && q.minSimilarity == 0.5
    requires p.id == "p" && p.approved && p.rentAmount == 9000.0
    ensures x.property == p && !NumbersHold(q.wishes, x.property)
    ensures x in Results(q, [p], Kept([VectorMatch("p", "property:p", Some(0.0))]))
  {
    assert "property:" + "p" == "property:p";
    x := NearListingIsShown(q, p);
  }

  /** Whether an approved listing is all that the query asks for explicitly. */
  predicate Answers(q: Query, table: seq<Property>, p: Property) {
    && p in table && p.approved && FactsHold(q.wishes, p) && NumbersHold(q.wishes, p)
    && (MatchedPlaces(q, table) != [] ==> Located(q, p))
  }

  /** More than a type of property is asked for: furnishing, bedrooms, a rent, or a place that some listing is in. */
  ghost predicate Narrow(q: Query, table: seq<Property>) {
    || q.wishes.furnishing.Some? || q.wishes.bedrooms.Some? || q.wishes.rent.Some?
    || exists p :: p in table && p.approved && q.located(p.facts.place)
  }

  lemma {:induction false} AnswersAreExact(q: Query, table: seq<Property>, p: Property)
    requires Answers(q, table, p) && Restrictive(q.wishes, MatchedPlaces(q, table))
    ensures p in ExactProperties(q, table)
  {
    var matched := MatchedPlaces(q, table);
    if matched != [] {
      assert p in matched;
    }
  }

  lemma {:induction false} SeenIsRanked(kept: seq<Ranked>, id: string) returns (r: Ranked)
    requires id in Ids(kept)
    ensures r in kept && r.propertyId == id
  {
    r :| r in kept && r.propertyId == id;
  }

  /** The merged list ranks a seen id as the vectors do, and any other exact listing last. */
  lemma {:induction false} AnswerIsRanked(q: Query, table: seq<Property>, kept: seq<Ranked>, p: Property)
      returns (r: Ranked)
    requires DirectProperties(q, table) == [] && p in ExactProperties(q, table)
    ensures r in MergeOf(q, table, kept).ranked && r.propertyId == p.id
  {
    if p.id in Ids(kept) {
      r := SeenIsRanked(kept, p.id);
    } else {
      r := Ranked(p.id, 0.0);
      var unseen := Filter(ExactProperties(q, table), (p: Property) => p.id !in Ids(kept));
      var i :| 0 <= i < |unseen| && unseen[i] == p;
      assert RankAll(unseen, 0.0)[i] == r;
    }
  }

  lemma {:induction false} AnswerIsRead(q: Query, table: seq<Property>, kept: seq<Ranked>, p: Property)
    requires DistinctIds(table) && DirectProperties(q, table) == [] && p in ExactProperties(q, table)
    ensures var byId := MergeOf(q, table, kept).byId; p.id in byId && byId[p.id] == p
  {
    ByIdFinds(table, Filter(table, (p: Property) => p.approved && p.id in Ids(kept)) + ExactProperties(q, table), p);
  }

  /** With a restrictive wish and no listing found by its own text, every answer is a candidate. */
  lemma {:induction false} AnswersAreCandidates(q: Query, table: seq<Property>, kept: seq<Ranked>, p: Property)
      returns (x: Item)
    requires DistinctIds(table) && DirectProperties(q, table) == []
    requires Answers(q, table, p) && Narrow(q, table)
    ensures x.property == p && x in Candidates(q, table, kept)
  {
    var merge := MergeOf(q, table, kept);
    PlacesExactly(q, table);
    AnswersAreExact(q, table, p);
    AnswerIsRead(q, table, kept, p);
    var r := AnswerIsRanked(q, table, kept, p);
    ItemIsPresent(q, table, merge.ranked, merge.byId, r);
    x := Item(p, r.similarity);
    SortHasSame(ItemsOf(q, table, merge.ranked, merge.byId), Before);
  }

  lemma {:induction false} MissingOnlyWhenFull(c: seq<Item>, limit: nat, x: Item)
    requires Ordered(c, Before) && x in c
    ensures x in Cut(c, limit) || (|Cut(c, limit)| == limit && forall y | y in Cut(c, limit) :: !Before(x, y))
  {
    var i :| 0 <= i < |c| && c[i] == x;
    if i < limit || |c| <= limit {
      assert Cut(c, limit)[i] == x;
    } else {
      forall y | y in Cut(c, limit) ensures !Before(x, y) {
        var j :| 0 <= j < limit && c[j] == y;
      }
    }
  }

  /** `y` has the better claim to a place in the results, or an equal one. */
  predicate NotBehind(y: Item, x: Item) {
    || (y.property.isBoosted && !x.property.isBoosted)
    || (y.property.isBoosted == x.property.isBoosted && y.similarity >= x.similarity)
  }

  /**
   So an answer is only missing from the results when they are full, and all of them are boosted where it is
   not, or boosted alike and at least as similar. What it is compared by is the first match of its vector that
   counts, or nothing.
   */
  lemma {:induction false} AnswersAreFound(q: Query, table: seq<Property>, matches: seq<VectorMatch>, p: Property)
      returns (x: Item)
    requires DistinctIds(table) && DirectProperties(q, table) == []
    requires Kept(matches) != [] || q.wishes != Wishes(None, None, None, None)
    requires Answers(q, table, p) && Narrow(q, table)
    ensures x.property == p && (Ranked(p.id, x.similarity) in Kept(matches) || x.similarity == 0.0)
    ensures var items := Results(q, table, Kept(matches));
            x in items || (|items| == q.limit && forall y | y in items :: NotBehind(y, x))
  {
    KeptIsDistinct(matches);
    x := AnswersAreCandidates(q, table, Kept(matches), p);
    CandidatesAreSound(q, table, Kept(matches));
    MissingOnlyWhenFull(Candidates(q, table, Kept(matches)), q.limit, x);
    CandidatesAreSourced(q, table, Kept(matches), x);
  }

  /**
   Where the similarity of a result comes from: listings found by their own text stand alone and count as alike;
   otherwise it is that of the vectors, and nothing for a listing that only the exact search found.
   */
  lemma {:induction false} CandidatesAreSourced(q: Query, table: seq<Property>, kept: seq<Ranked>, x: Item)
    requires DistinctIds(table) && DistinctKept(kept) && x in Candidates(q, table, kept)
    ensures DirectProperties(q, table) != [] ==> x.property in DirectProperties(q, table) && x.similarity == 1.0
    ensures DirectProperties(q, table) == [] ==>
              || Ranked(x.property.id, x.similarity) in kept
              || (&& x.similarity == 0.0 && x.property.id !in Ids(kept)
                  && FactsHold(q.wishes, x.property) && NumbersHold(q.wishes, x.property))
  {
    var merge := MergeOf(q, table, kept);
    SortHasSame(ItemsOf(q, table, merge.ranked, merge.byId), Before);
    MergeIsSourced(q, table, kept);
    ItemsAreAdmitted(q, table, merge.ranked, merge.byId);
    var r := Ranked(x.property.id, x.similarity);
    if DirectProperties(q, table) != [] {
      DirectIsRanked(table, DirectProperties(q, table), r, x.property);
      var i :| 0 <= i < |RankAll(DirectProperties(q, table), 1.0)| && RankAll(DirectProperties(q, table), 1.0)[i] == r;
    } else if r !in kept {
      var unseen := Filter(ExactProperties(q, table), (p: Property) => p.id !in Ids(kept));
      UnseenIsExact(table, ExactProperties(q, table), unseen, r, x.property);
      var i :| 0 <= i < |RankAll(unseen, 0.0)| && RankAll(unseen, 0.0)[i] == r;
      assert unseen[i] in unseen;
    }
  }
}
