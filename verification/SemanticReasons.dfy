/** What a search text asks for explicitly, and the reasons given for a result. */
module SemanticReasons {
  import opened Wrappers
  import opened JsText
  import opened QueryNumbers
  import opened TextMatch

  datatype PropertyType = Apartment | Villa | Studio

  datatype City = City(nameAr: string, nameEn: string)

  datatype Place = Place(city: Option<City>, district: string)

  datatype Facts = Facts(place: Place, propertyType: PropertyType, bedrooms: nat, isFurnished: bool)

  datatype ReasonCode =
    LocationMentionMatch | PropertyTypeMentionMatch | BedroomMentionMatch | FurnishingMentionMatch | MatchesSearchIntent

  const MAX_REASONS := 3

  /** The words the detectors know: terms, what may follow a number of rooms, and what may precede a rent, in parts. */
  datatype Vocabulary = Vocabulary(
    unfurnished: seq<string>, furnished: seq<string>,
    apartment: seq<string>, villa: seq<string>, studio: seq<string>,
    bedroomWords: seq<(nat, string)>, rooms: seq<string>, rentLimits: seq<seq<string>>)
  {
    function TypeTerms(t: PropertyType): seq<string> {
      match t
      case Apartment => apartment
      case Villa => villa
      case Studio => studio
    }
  }

  // What may precede the highest rent, each phrase in its parts.
  const AT_MOST: seq<seq<string>> := [["بحد", "اقصي"], ["حد", "اقصي"], ["لا", "يزيد", "عن"]]
  const UNTIL: seq<string> := ["حت\U{0649}"]
  const LESS_THAN: seq<seq<string>> := [["اقل", "من"], ["maximum"], ["max"], ["up", "to"], ["under"]]

  const ARABIC_AND_ENGLISH: Vocabulary := Vocabulary(
    ["unfurnished", "not furnished", "غير مفروش", "غير مفروشة", "غير مفروشه", "بدون فرش"],
    ["furnished", "مفروش", "مفروشة", "مفروشه"],
    ["apartment", "flat", "شقة", "شقه"], ["villa", "فيلا"], ["studio", "استوديو", "استديو"],
    [(1, "غرفه"), (2, "غرفتين"), (2, "غرفتان"), (2, "اثنين غرف"), (2, "اثنتين غرف"),
     (3, "ثلاث غرف"), (4, "اربع غرف"), (5, "خمس غرف")],
    ["bedrooms", "bedroom", "rooms", "room", "غرفه", "غرف"],
    AT_MOST + [UNTIL] + LESS_THAN)

  /** The character classes and the words. Unless it names the list above, a statement holds of any list. */
  datatype Language = Language(alphabet: Alphabet, words: Vocabulary)

  predicate Mentions(a: Alphabet, query: string, terms: seq<string>) {
    exists i | 0 <= i < |terms| :: ContainsTerm(a, query, terms[i])
  }

  function DetectFurnishingPreference(l: Language, query: string): Option<bool> {
    if Mentions(l.alphabet, query, l.words.unfurnished) then Some(false)
    else if Mentions(l.alphabet, query, l.words.furnished) then Some(true)
    else None
  }

  /** The names of a place that are not blank. */
  function NamesOf(place: Place): seq<string> {
    (if place.city.Some? && Trim(place.city.value.nameAr) != [] then [place.city.value.nameAr] else [])
    + (if place.city.Some? && Trim(place.city.value.nameEn) != [] then [place.city.value.nameEn] else [])
    + (if Trim(place.district) != [] then [place.district] else [])
  }

  predicate PropertyLocationMatches(l: Language, query: string, place: Place) {
    Mentions(l.alphabet, query, NamesOf(place))
  }

  predicate PropertyTypeMatches(l: Language, query: string, t: PropertyType) {
    Mentions(l.alphabet, query, l.words.TypeTerms(t))
  }

  function DetectPropertyTypePreference(l: Language, query: string): Option<PropertyType> {
    var normalizedQuery := Normalize(l.alphabet, query);
    if PropertyTypeMatches(l, normalizedQuery, Apartment) then Some(Apartment)
    else if PropertyTypeMatches(l, normalizedQuery, Villa) then Some(Villa)
    else if PropertyTypeMatches(l, normalizedQuery, Studio) then Some(Studio)
    else None
  }

  function FirstMentioned(a: Alphabet, text: string, counts: seq<(nat, string)>): Option<nat> {
    if counts == [] then None
    else if ContainsTerm(a, text, counts[0].1) then Some(counts[0].0)
    else FirstMentioned(a, text, counts[1..])
  }

  /** It is the count of the phrase in the list that the text contains and before which it contains none. */
  lemma {:induction false} FirstMentionedIsFirst(a: Alphabet, text: string, counts: seq<(nat, string)>, i: nat)
    requires i <= |counts| && forall j | 0 <= j < i :: !ContainsTerm(a, text, counts[j].1)
    requires i < |counts| ==> ContainsTerm(a, text, counts[i].1)
    ensures FirstMentioned(a, text, counts) == if i < |counts| then Some(counts[i].0) else None
    decreases i
  {
    if i > 0 {
      assert !ContainsTerm(a, text, counts[0].1);
      FirstMentionedIsFirst(a, text, counts[1..], i - 1);
    }
  }

  function RequestedBedroomCount(l: Language, query: string): Option<nat> {
    var normalized := LatinDigits(Normalize(l.alphabet, query), 5);
    var numeric := ReadCount(l.words.rooms, normalized);
    if numeric.Some? then numeric else FirstMentioned(l.alphabet, normalized, l.words.bedroomWords)
  }

  function RequestedMaximumRent(l: Language, query: string): Option<nat> {
    ReadLimit(l.words.rentLimits, LatinDigits(Normalize(l.alphabet, query), 9))
  }

  lemma {:induction false} MentionsNormalized(a: Alphabet, query: string, terms: seq<string>)
    requires Sound(a)
    ensures Mentions(a, Normalize(a, query), terms) == Mentions(a, query, terms)
  {
    forall i | 0 <= i < |terms|
      ensures ContainsTerm(a, Normalize(a, query), terms[i]) == ContainsTerm(a, query, terms[i])
    {
      NormalizedTextsMatchAlike(a, query, terms[i]);
    }
  }

  lemma {:induction false} FurnishingNormalized(l: Language, query: string)
    requires Sound(l.alphabet)
    ensures DetectFurnishingPreference(l, Normalize(l.alphabet, query)) == DetectFurnishingPreference(l, query)
  {
    MentionsNormalized(l.alphabet, query, l.words.unfurnished);
    MentionsNormalized(l.alphabet, query, l.words.furnished);
  }

  lemma {:induction false} PlaceAndTypeNormalized(l: Language, query: string, place: Place, t: PropertyType)
    requires Sound(l.alphabet)
    ensures PropertyLocationMatches(l, Normalize(l.alphabet, query), place) == PropertyLocationMatches(l, query, place)
    ensures PropertyTypeMatches(l, Normalize(l.alphabet, query), t) == PropertyTypeMatches(l, query, t)
  {
    MentionsNormalized(l.alphabet, query, NamesOf(place));
    MentionsNormalized(l.alphabet, query, l.words.TypeTerms(t));
  }

  lemma {:induction false} TypeReaderNormalized(l: Language, query: string)
    requires Sound(l.alphabet)
    ensures DetectPropertyTypePreference(l, Normalize(l.alphabet, query)) == DetectPropertyTypePreference(l, query)
  {
    NormalizeKeepsTokens(l.alphabet, query);
  }

  lemma {:induction false} BedroomReaderNormalized(l: Language, query: string)
    requires Sound(l.alphabet)
    ensures RequestedBedroomCount(l, Normalize(l.alphabet, query)) == RequestedBedroomCount(l, query)
  {
    NormalizeKeepsTokens(l.alphabet, query);
  }

  lemma {:induction false} RentReaderNormalized(l: Language, query: string)
    requires Sound(l.alphabet)
    ensures RequestedMaximumRent(l, Normalize(l.alphabet, query)) == RequestedMaximumRent(l, query)
  {
    NormalizeKeepsTokens(l.alphabet, query);
  }

  /** The tokens of one of the terms, if it has any, stand in a row in the query. */
  ghost predicate MentionsTokens(a: Alphabet, query: string, terms: seq<string>) {
    exists i | 0 <= i < |terms| :: Tokens(a, terms[i]) != [] && Occurs(Tokens(a, terms[i]), Tokens(a, query))
  }

  /** Preferences are read off the words of the query alone; a denial outweighs the word it contains. */
  lemma {:induction false} PreferencesByTokens(l: Language, query: string, place: Place)
    requires Sound(l.alphabet)
    ensures DetectFurnishingPreference(l, query) == Some(false)
            <==> MentionsTokens(l.alphabet, query, l.words.unfurnished)
    ensures DetectFurnishingPreference(l, query) == Some(true)
            <==> MentionsTokens(l.alphabet, query, l.words.furnished)
                 && !MentionsTokens(l.alphabet, query, l.words.unfurnished)
    ensures PropertyLocationMatches(l, query, place) <==>
            || (place.city.Some? && Names(l, query, place.city.value.nameAr))
            || (place.city.Some? && Names(l, query, place.city.value.nameEn))
            || Names(l, query, place.district)
  {
    NamesMentioned(l, query, place);
    MentionsByTokens(l.alphabet, query, l.words.unfurnished);
    MentionsByTokens(l.alphabet, query, l.words.furnished);
    MentionsByTokens(l.alphabet, query, NamesOf(place));
  }

  /** The tokens of a name that is not blank stand in a row in the query. */
  ghost predicate Names(l: Language, query: string, name: string) {
    && Trim(name) != []
    && Tokens(l.alphabet, name) != [] && Occurs(Tokens(l.alphabet, name), Tokens(l.alphabet, query))
  }

  lemma {:induction false} MentionsOne(a: Alphabet, query: string, term: string)
    ensures MentionsTokens(a, query, [term]) <==> Tokens(a, term) != [] && Occurs(Tokens(a, term), Tokens(a, query))
    ensures !MentionsTokens(a, query, [])
  {
    assert [term][0] == term;
  }

  lemma {:induction false} MentionsInParts(a: Alphabet, query: string, x: seq<string>, y: seq<string>)
    ensures MentionsTokens(a, query, x + y) <==> MentionsTokens(a, query, x) || MentionsTokens(a, query, y)
  {
    var all := x + y;
    forall i | 0 <= i < |x| ensures all[i] == x[i] {
    }
    forall i | 0 <= i < |y| ensures all[|x| + i] == y[i] {
    }
    if i :| 0 <= i < |all| && Tokens(a, all[i]) != [] && Occurs(Tokens(a, all[i]), Tokens(a, query)) {
      assert if i < |x| then all[i] == x[i] else all[i] == y[i - |x|];
    }
  }

  lemma {:induction false} NamesMentioned(l: Language, query: string, place: Place)
    ensures MentionsTokens(l.alphabet, query, NamesOf(place)) <==>
            || (place.city.Some? && Names(l, query, place.city.value.nameAr))
            || (place.city.Some? && Names(l, query, place.city.value.nameEn))
            || Names(l, query, place.district)
  {
    var city, district := place.city, if Trim(place.district) != [] then [place.district] else [];
    var ar := if city.Some? && Trim(city.value.nameAr) != [] then [city.value.nameAr] else [];
    var en := if city.Some? && Trim(city.value.nameEn) != [] then [city.value.nameEn] else [];
    MentionsInParts(l.alphabet, query, ar, en);
    MentionsInParts(l.alphabet, query, ar + en, district);
    if city.Some? {
      MentionsOne(l.alphabet, query, city.value.nameAr);
      MentionsOne(l.alphabet, query, city.value.nameEn);
    }
    MentionsOne(l.alphabet, query, place.district);
  }

  /** The first of the types, in the order APARTMENT, VILLA, STUDIO, that the query mentions. */
  lemma {:induction false} TypePreferenceByTokens(l: Language, query: string)
    requires Sound(l.alphabet)
    ensures var apartment := MentionsTokens(l.alphabet, query, l.words.apartment);
            var villa := MentionsTokens(l.alphabet, query, l.words.villa);
            var studio := MentionsTokens(l.alphabet, query, l.words.studio);
            DetectPropertyTypePreference(l, query)
            == if apartment then Some(Apartment) else if villa then Some(Villa)
               else if studio then Some(Studio) else None
  {
    MentionsNormalized(l.alphabet, query, l.words.apartment);
    MentionsNormalized(l.alphabet, query, l.words.villa);
    MentionsNormalized(l.alphabet, query, l.words.studio);
    MentionsByTokens(l.alphabet, query, l.words.apartment);
    MentionsByTokens(l.alphabet, query, l.words.villa);
    MentionsByTokens(l.alphabet, query, l.words.studio);
  }

  lemma {:induction false} MentionsByTokens(a: Alphabet, query: string, terms: seq<string>)
    requires Sound(a)
    ensures Mentions(a, query, terms) <==> MentionsTokens(a, query, terms)
  {
    forall i | 0 <= i < |terms|
      ensures ContainsTerm(a, query, terms[i])
              <==> Tokens(a, terms[i]) != [] && Occurs(Tokens(a, terms[i]), Tokens(a, query))
    {
      ContainsTermMatchesTokens(a, query, terms[i]);
    }
  }

  // ---- The numbers a query gives ----

  function LatinTokens(ts: seq<string>, last: nat): seq<string>
    requires last <= 9
  {
    if ts == [] then [] else [LatinDigits(ts[0], last)] + LatinTokens(ts[1..], last)
  }

  lemma {:induction false} LatinTokensAreTokens(ts: seq<string>, last: nat)
    requires AreTokens(ts) && last <= 9
    ensures AreTokens(LatinTokens(ts, last))
    decreases |ts|
  {
    if ts != [] {
      assert IsToken(ts[0]);
      assert IsToken(LatinDigits(ts[0], last));
      LatinTokensAreTokens(ts[1..], last);
    }
  }

  lemma {:induction false} LatinDigitsOfJoin(ts: seq<string>, last: nat)
    requires last <= 9
    ensures LatinDigits(Join(ts), last) == Join(LatinTokens(ts, last))
    decreases |ts|
  {
    if |ts| == 1 {
      assert LatinTokens(ts, last) == [LatinDigits(ts[0], last)] by {
        assert ts[1..] == [];
      }
    } else if |ts| > 1 {
      LatinDigitsOfJoin(ts[1..], last);
      assert LatinTokens(ts, last)[1..] == LatinTokens(ts[1..], last);
      assert LatinDigits(Join(ts), last) == LatinDigits(ts[0], last) + [' '] + LatinDigits(Join(ts[1..]), last);
    }
  }

  /**
   The expression for bedrooms reads whole tokens: the first digit from 1 to 5 that is followed by one of the
   words, in the same token or as the next one.
   */
  lemma {:induction false} BedroomsByTokens(l: Language, query: string)
    requires Sound(l.alphabet) && AreTokens(l.words.rooms)
    ensures var ts := LatinTokens(Tokens(l.alphabet, query), 5);
            && AreTokens(ts)
            && RequestedBedroomCount(l, query)
               == if CountInTokens(l.words.rooms, ts).Some? then CountInTokens(l.words.rooms, ts)
                  else FirstMentioned(l.alphabet, Join(ts), l.words.bedroomWords)
  {
    var ts := Tokens(l.alphabet, query);
    NormalizeJoinsTokens(l.alphabet, query);
    RunsAreTokens(l.alphabet, Cleaned(l.alphabet, query));
    LatinTokensAreTokens(ts, 5);
    LatinDigitsOfJoin(ts, 5);
    ReadCountByTokens(l.words.rooms, LatinTokens(ts, 5));
  }

  lemma {:induction false} MentionedIsListed(a: Alphabet, text: string, counts: seq<(nat, string)>)
    ensures var r := FirstMentioned(a, text, counts); r.Some? ==> exists c | c in counts :: c.0 == r.value
    decreases |counts|
  {
    if counts != [] {
      assert counts[0] in counts;
      MentionedIsListed(a, text, counts[1..]);
    }
  }

  /** The bedrooms asked for are one to five, and the rent is less than ten million. */
  lemma {:induction false} NumbersAreBounded(l: Language, query: string)
    requires Sound(l.alphabet) && AreTokens(l.words.rooms)
    requires forall c | c in l.words.bedroomWords :: 1 <= c.0 <= 5
    ensures var bedrooms := RequestedBedroomCount(l, query); bedrooms.Some? ==> 1 <= bedrooms.value <= 5
    ensures var rent := RequestedMaximumRent(l, query); rent.Some? ==> rent.value < 10_000_000
  {
    BedroomsByTokens(l, query);
    var ts := LatinTokens(Tokens(l.alphabet, query), 5);
    CountIsSmall(l.words.rooms, ts);
    MentionedIsListed(l.alphabet, Join(ts), l.words.bedroomWords);
    ReadLimitIsBounded(l.words.rentLimits, LatinDigits(Normalize(l.alphabet, query), 9));
  }

  lemma {:induction false} KnownNumbersAreBounded(a: Alphabet, query: string)
    requires Sound(a)
    ensures var bedrooms := RequestedBedroomCount(Language(a, ARABIC_AND_ENGLISH), query);
            bedrooms.Some? ==> 1 <= bedrooms.value <= 5
  {
    RoomWordsAreTokens();
    RoomWordsAreFew();
    NumbersAreBounded(Language(a, ARABIC_AND_ENGLISH), query);
  }

  lemma {:induction false} RoomWordsAreTokens()
    ensures AreTokens(ARABIC_AND_ENGLISH.rooms)
  {
  }

  lemma {:induction false} RoomWordsAreFew()
    ensures forall c | c in ARABIC_AND_ENGLISH.bedroomWords :: 1 <= c.0 <= 5
  {
  }

  /** The normalised text, its digits in Latin form, holds no character that normalising replaces. */
  lemma {:induction false} NormalizedLacks(a: Alphabet, s: string, c: char)
    requires Sound(a) && !Settled(a, c) && !IsDigit(c)
    ensures c !in LatinDigits(Normalize(a, s), 9)
  {
    NormalizeSettles(a, s);
    assert forall d | d in Normalize(a, s) :: Settled(a, d);
  }

  /** A phrase for the highest rent that is spelled with such a character might as well not be there. */
  lemma {:induction false} UnsettledPhrasesAreDead(l: Language, query: string, c: char)
    requires Sound(l.alphabet) && !Settled(l.alphabet, c) && !IsDigit(c)
    ensures RequestedMaximumRent(l, query)
            == RequestedMaximumRent(l.(words := l.words.(rentLimits := Without(l.words.rentLimits, c))), query)
  {
    NormalizedLacks(l.alphabet, query, c);
    ReadLimitWithout(l.words.rentLimits, LatinDigits(Normalize(l.alphabet, query), 9), c);
  }

  const ALEF_MAKSURA := '\U{0649}'

  lemma {:induction false} AtMostIsAlive()
    ensures Without(AT_MOST, ALEF_MAKSURA) == AT_MOST
  {
    WithoutKeeps(AT_MOST, ALEF_MAKSURA);
  }

  lemma {:induction false} LessThanIsAlive()
    ensures Without(LESS_THAN, ALEF_MAKSURA) == LESS_THAN
  {
    WithoutKeeps(LESS_THAN, ALEF_MAKSURA);
  }

  lemma {:induction false} UntilIsDead()
    ensures Without([UNTIL], ALEF_MAKSURA) == []
  {
    assert UNTIL[0][2] == ALEF_MAKSURA && Holds(UNTIL, ALEF_MAKSURA);
    assert [UNTIL][1..] == [];
  }

  /**
   The alternative "until" is spelled with the letter that normalising turns into another one, so no query
   matches it: the highest rent is what the other phrases give.
   */
  lemma {:induction false} UntilNeverMatches(a: Alphabet, query: string)
    requires Sound(a)
    ensures var l := Language(a, ARABIC_AND_ENGLISH);
            && l.words.rentLimits == AT_MOST + [UNTIL] + LESS_THAN
            && RequestedMaximumRent(l, query)
               == RequestedMaximumRent(l.(words := l.words.(rentLimits := AT_MOST + LESS_THAN)), query)
  {
    AtMostIsAlive();
    UntilIsDead();
    LessThanIsAlive();
    WithoutInParts(AT_MOST, [UNTIL], ALEF_MAKSURA);
    WithoutInParts(AT_MOST + [UNTIL], LESS_THAN, ALEF_MAKSURA);
    assert AT_MOST + [] == AT_MOST;
    UnsettledPhrasesAreDead(Language(a, ARABIC_AND_ENGLISH), query, ALEF_MAKSURA);
  }

  ghost predicate Plain(a: Alphabet, s: string) {
    forall i | 0 <= i < |s| :: a.isWord(s[i]) && Settled(a, s[i])
  }

  lemma {:induction false} TwoTokens(a: Alphabet, t: string, n: string)
    requires Sound(a) && t != [] && n != [] && Plain(a, t) && Plain(a, n)
    ensures Normalize(a, t + [' '] + n) == t + [' '] + n
  {
    var ts := [t, n];
    RunEndIs(a, t, |t|);
    RunEndIs(a, n, |n|);
    assert AreClean(a, ts);
    assert Join(ts) == t + [' '] + n by {
      assert ts[1..] == [n];
    }
    JoinSettles(a, ts);
    CleanedKeepsSettled(a, Join(ts));
    RunsOfJoin(a, ts);
    NormalizeJoinsTokens(a, Join(ts));
  }

  /** Two texts that are cleaned alike are read alike. */
  lemma {:induction false} CleanedAlike(l: Language, x: string, y: string)
    requires Cleaned(l.alphabet, x) == Cleaned(l.alphabet, y)
    ensures RequestedMaximumRent(l, x) == RequestedMaximumRent(l, y)
  {
  }

  lemma {:induction false} NoPhraseIn(s: string, n: string, i: nat)
    requires s == "حت\U{064A}" + [' '] + n && (forall j | 0 <= j < |n| :: IsDigit(n[j])) && i <= |s|
    ensures forall k | 0 <= k < |AT_MOST| :: Behind(AT_MOST[k], s[i..]).None?
    ensures forall k | 0 <= k < |LESS_THAN| :: Behind(LESS_THAN[k], s[i..]).None?
  {
    assert i >= 4 && i < |s| ==> IsDigit(s[i]) by {
      if i >= 4 && i < |s| {
        assert s[i] == n[i - 4];
      }
    }
    forall k | 0 <= k < |AT_MOST| ensures Behind(AT_MOST[k], s[i..]).None? {
      NotAhead(AT_MOST[k][0], s, i);
    }
    forall k | 0 <= k < |LESS_THAN| ensures Behind(LESS_THAN[k], s[i..]).None? {
      NotAhead(LESS_THAN[k][0], s, i);
    }
  }

  lemma {:induction false} NotAhead(w: string, s: string, i: nat)
    requires |w| >= 2 && i <= |s|
    requires i + 2 <= |s| ==> w[0] != s[i] || w[1] != s[i + 1]
    ensures !(w <= s[i..])
  {
    if i + 2 <= |s| {
      assert s[i..][0] == s[i] && s[i..][1] == s[i + 1];
    }
  }

  lemma {:induction false} UntilCleaned(a: Alphabet, n: string)
    requires Plain(a, "حت\U{064A}") && a.lower(ALEF_MAKSURA) == ALEF_MAKSURA && a.lower(' ') == ' ' && Plain(a, n)
    ensures Cleaned(a, UNTIL[0] + [' '] + n) == Cleaned(a, "حت\U{064A}" + [' '] + n)
  {
    var s, q := "حت\U{064A}" + [' '] + n, UNTIL[0] + [' '] + n;
    assert Mapped(Fold, Mapped(a.lower, s)) == s && Mapped(Fold, Mapped(a.lower, q)) == s;
  }

  /** So "until", a space and a number is not understood as a limit, whatever the number. */
  lemma {:induction false} UntilIsLost(a: Alphabet, n: string)
    requires Sound(a) && Plain(a, "حت\U{064A}") && a.lower(ALEF_MAKSURA) == ALEF_MAKSURA
    requires n != [] && Plain(a, n) && forall i | 0 <= i < |n| :: IsDigit(n[i])
    ensures RequestedMaximumRent(Language(a, ARABIC_AND_ENGLISH), UNTIL[0] + [' '] + n).None?
  {
    var t := "حت\U{064A}";
    var s, q := t + [' '] + n, UNTIL[0] + [' '] + n;
    var l := Language(a, ARABIC_AND_ENGLISH);
    UntilCleaned(a, n);
    CleanedAlike(l, q, s);
    TwoTokens(a, t, n);
    assert LatinDigits(s, 9) == s;
    UntilNeverMatches(a, s);
    forall i, k | 0 <= i <= |s| && 0 <= k < |AT_MOST + LESS_THAN|
      ensures Behind((AT_MOST + LESS_THAN)[k], s[i..]).None?
    {
      NoPhraseIn(s, n, i);
    }
    NothingToRead(AT_MOST + LESS_THAN, s);
  }

  lemma {:induction false} OthersBegin(w: string, s: string)
    requires |w| >= 2 && |s| >= 2 && (w[0] != s[0] || w[1] != s[1])
    ensures !(w <= s)
  {
  }

  lemma {:induction false} OnlyUnderBegins(n: string)
    ensures var s, limits := "under" + [' '] + n, AT_MOST + LESS_THAN;
            && limits[7] == ["under"]
            && forall k | 0 <= k < |limits| && k != 7 :: Behind(limits[k], s).None?
  {
    var s, limits := "under" + [' '] + n, AT_MOST + LESS_THAN;
    assert s[0] == 'u' && s[1] == 'n';
    forall k | 0 <= k < |limits| && k != 7 ensures Behind(limits[k], s).None? {
      OthersBegin(limits[k][0], s);
    }
  }

  /** A limit that is understood: "under", a space and a number of three to seven digits asks for that number. */
  lemma {:induction false} UnderIsRead(a: Alphabet, amount: nat, digits: nat)
    requires Sound(a) && amount < TenTo(digits) && 3 <= digits <= 7
    requires Plain(a, "under") && Plain(a, Decimal(amount, digits))
    ensures RequestedMaximumRent(Language(a, ARABIC_AND_ENGLISH), "under" + [' '] + Decimal(amount, digits))
            == Some(amount)
  {
    var n := Decimal(amount, digits);
    var s := "under" + [' '] + n;
    TwoTokens(a, "under", n);
    assert LatinDigits(s, 9) == s;
    UntilNeverMatches(a, s);
    OnlyUnderBegins(n);
    LimitBehindWord(AT_MOST + LESS_THAN, 7, "under", n);
    ValueOfDecimal(amount, digits);
    assert n[..digits] == n && s[0..] == s;
  }

  // ---- The reasons of a result ----

  predicate BedroomsSuit(l: Language, query: string, p: Facts) {
    var bedrooms := RequestedBedroomCount(l, query);
    bedrooms.Some? && p.bedrooms >= bedrooms.value
  }

  predicate FurnishingSuits(l: Language, query: string, p: Facts) {
    p.isFurnished && DetectFurnishingPreference(l, query) == Some(true)
  }

  function Count(b: bool): nat { if b then 1 else 0 }

  function Specific(location: bool, propertyType: bool, bedrooms: bool): (r: seq<ReasonCode>)
    ensures |r| == Count(location) + Count(propertyType) + Count(bedrooms)
    ensures LocationMentionMatch in r <==> location
    ensures PropertyTypeMentionMatch in r <==> propertyType
    ensures BedroomMentionMatch in r <==> bedrooms
    ensures FurnishingMentionMatch !in r && MatchesSearchIntent !in r
    ensures location ==> r[0] == LocationMentionMatch
    ensures bedrooms ==> r[|r| - 1] == BedroomMentionMatch
  {
    (if location then [LocationMentionMatch] else []) + (if propertyType then [PropertyTypeMentionMatch] else [])
    + (if bedrooms then [BedroomMentionMatch] else [])
  }

  function General(furnishing: bool): seq<ReasonCode> {
    if furnishing then [FurnishingMentionMatch, MatchesSearchIntent] else [MatchesSearchIntent]
  }

  /** Of the reasons that hold, the first three; the general one only where there is room. */
  function FirstReasons(location: bool, propertyType: bool, bedrooms: bool, furnishing: bool): (r: seq<ReasonCode>)
    ensures 1 <= |r| <= MAX_REASONS
    ensures LocationMentionMatch in r <==> location
    ensures PropertyTypeMentionMatch in r <==> propertyType
    ensures BedroomMentionMatch in r <==> bedrooms
    ensures FurnishingMentionMatch in r <==> furnishing && !(location && propertyType && bedrooms)
    ensures MatchesSearchIntent in r
            <==> Count(location) + Count(propertyType) + Count(bedrooms) + Count(furnishing) < MAX_REASONS
    ensures location ==> r[0] == LocationMentionMatch
    ensures MatchesSearchIntent in r ==> r[|r| - 1] == MatchesSearchIntent
  {
    var s, g := Specific(location, propertyType, bedrooms), General(furnishing);
    var room := MAX_REASONS - |s|;
    assert room > 0 ==> g[..1] == [g[0]];
    s + (if |g| <= room then g else g[..room])
  }

  /** The reasons given for a listing are what the query says and the listing is. */
  lemma {:induction false} ReasonsAreFacts(l: Language, query: string, p: Facts)
    requires Sound(l.alphabet)
    ensures BedroomsSuit(l, query, p) <==>
            RequestedBedroomCount(l, query).Some? && RequestedBedroomCount(l, query).value <= p.bedrooms
    ensures FurnishingSuits(l, query, p) <==> p.isFurnished && DetectFurnishingPreference(l, query) == Some(true)
    ensures PropertyTypeMatches(l, query, p.propertyType) <==>
            MentionsTokens(l.alphabet, query, if p.propertyType == Apartment then l.words.apartment
                                              else if p.propertyType == Villa then l.words.villa else l.words.studio)
  {
    MentionsByTokens(l.alphabet, query, l.words.TypeTerms(p.propertyType));
  }

  lemma {:induction false} CutAfterSpecific(s: seq<ReasonCode>, g: seq<ReasonCode>)
    requires |s| <= MAX_REASONS < |s| + |g|
    ensures (s + g)[..MAX_REASONS] == s + g[..MAX_REASONS - |s|]
  {
  }

  method PushReasons(location: bool, propertyType: bool, bedrooms: bool, furnishing: bool)
      returns (reasons: seq<ReasonCode>)
    ensures reasons == FirstReasons(location, propertyType, bedrooms, furnishing)
  {
    reasons := [];
    if location {
      reasons := reasons + [LocationMentionMatch];
    }
    if propertyType {
      reasons := reasons + [PropertyTypeMentionMatch];
    }
    if bedrooms {
      reasons := reasons + [BedroomMentionMatch];
    }
    assert reasons == Specific(location, propertyType, bedrooms);
    if furnishing {
      reasons := reasons + [FurnishingMentionMatch];
    }
    reasons := reasons + [MatchesSearchIntent];
    ghost var s, g := Specific(location, propertyType, bedrooms), General(furnishing);
    assert reasons == s + g;
    if |reasons| > MAX_REASONS {
      CutAfterSpecific(s, g);
      reasons := reasons[..MAX_REASONS];
    }
  }

  /** The reasons, found on the normalised query, are facts about the query as it was typed. */
  method BuildSemanticMatchReasons(l: Language, query: string, property: Facts) returns (reasons: seq<ReasonCode>)
    requires Sound(l.alphabet)
    ensures reasons == FirstReasons(
      PropertyLocationMatches(l, query, property.place), PropertyTypeMatches(l, query, property.propertyType),
      BedroomsSuit(l, query, property), FurnishingSuits(l, query, property))
  {
    var normalizedQuery := Normalize(l.alphabet, query);
    FurnishingNormalized(l, query);
    PlaceAndTypeNormalized(l, query, property.place, property.propertyType);
    BedroomReaderNormalized(l, query);
    reasons := PushReasons(
      PropertyLocationMatches(l, normalizedQuery, property.place),
      PropertyTypeMatches(l, normalizedQuery, property.propertyType),
      BedroomsSuit(l, normalizedQuery, property), FurnishingSuits(l, normalizedQuery, property));
  }
}
