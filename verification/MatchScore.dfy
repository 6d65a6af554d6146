/** How well a property fits a request: the rules, the cosine of the vectors, and the score that joins them. */
module MatchScore {
  import opened Wrappers
  import opened JsText
  import opened Vectors

  datatype Request = Request(
    minBudget: real, maxBudget: real, preferredLocations: string, propertyType: string, requiredBedrooms: int,
    needsFurnished: bool, lifestyleRequirements: string, flexibilityScore: int, embedding: Vector)

  datatype Property = Property(
    rentAmount: real, district: string, propertyType: string, bedrooms: int, isFurnished: bool,
    description: string, propertyAroundServices: Option<string>, isBoosted: bool, embedding: Vector)

  /** `Math.round`: to the nearest integer, halves upwards. */
  function Round(x: real): (r: int)
    ensures x - 0.5 < r as real <= x + 0.5
  {
    (x + 0.5).Floor
  }

  function Min(x: int, y: int): int { if x <= y then x else y }
  function Max(x: int, y: int): int { if x <= y then y else x }

  lemma {:induction false} RoundIsMonotone(x: real, y: real)
    requires x <= y
    ensures Round(x) <= Round(y)
  {
  }

  // ---- The rules ----

  /** The length of the text up to its first white space. */
  function WordEnd(s: string): (n: nat)
    ensures n <= |s| && (n < |s| ==> IsSpace(s[n]))
    ensures forall i | 0 <= i < n :: !IsSpace(s[i])
  {
    if s == [] || IsSpace(s[0]) then 0 else 1 + WordEnd(s[1..])
  }

  /** The pieces between the runs of white space. */
  function SplitAtSpaces(s: string): seq<string>
    decreases |s|
  {
    var n := WordEnd(s);
    if n == |s| then [s] else [s[..n]] + SplitAtSpaces(TrimStart(s[n..]))
  }

  function Words(text: string): seq<string> {
    LongOnes(SplitAtSpaces(text))
  }

  function LongOnes(pieces: seq<string>): seq<string> {
    if pieces == [] then [] else (if |pieces[0]| > 3 then [pieces[0]] else []) + LongOnes(pieces[1..])
  }

  function Mentioned(words: seq<string>, haystack: string): nat {
    if words == [] then 0 else (if Includes(haystack, words[0]) then 1 else 0) + Mentioned(words[1..], haystack)
  }

  function Haystack(p: Property): string {
    p.description + " " + (if p.propertyAroundServices.Some? then p.propertyAroundServices.value else "")
  }

  predicate InBudget(r: Request, p: Property) {
    r.minBudget <= p.rentAmount <= r.maxBudget
  }

  function FactPoints(r: Request, p: Property): int {
    (if InBudget(r, p) then 18 else -22)
    + (if Includes(r.preferredLocations, p.district) then 12 else 0)
    + (if p.propertyType == r.propertyType then 8 else 0)
    + (if p.bedrooms >= r.requiredBedrooms then 5 else 0)
    + (if !r.needsFurnished || p.isFurnished then 5 else 0)
  }

  /** Two points for each word of the wishes that the listing mentions, up to ten. */
  function MentionPoints(r: Request, p: Property): int {
    Min(10, Mentioned(Words(r.lifestyleRequirements), Haystack(p)) * 2)
  }

  /** What the score adds up before it is clamped. */
  function RuleSum(r: Request, p: Property): int {
    50 + FactPoints(r, p) + MentionPoints(r, p) + Round((r.flexibilityScore - 5) as real * 0.6)
      + (if p.isBoosted then 2 else 0)
  }

  function RuleScore(r: Request, p: Property): (score: int)
    ensures 5 <= score <= 98
  {
    Max(5, Min(98, RuleSum(r, p)))
  }

  method ScoreRequestAgainstProperty(request: Request, property: Property) returns (score: int)
    ensures score == RuleScore(request, property)
    ensures 5 <= score <= 98
  {
    score := 50;
    if property.rentAmount >= request.minBudget && property.rentAmount <= request.maxBudget {
      score := score + 18;
    } else {
      score := score - 22;
    }
    if Includes(request.preferredLocations, property.district) {
      score := score + 12;
    }
    if property.propertyType == request.propertyType {
      score := score + 8;
    }
    if property.bedrooms >= request.requiredBedrooms {
      score := score + 5;
    }
    if !request.needsFurnished || property.isFurnished {
      score := score + 5;
    }
    assert score == 50 + FactPoints(request, property);
    score := score + MentionPoints(request, property);
    score := score + Round((request.flexibilityScore - 5) as real * 0.6);
    if property.isBoosted {
      score := score + 2;
    }
    score := Max(5, Min(98, score));
  }

  predicate FactsFitAsWell(r: Request, p: Property, q: Property) {
    && (InBudget(r, p) ==> InBudget(r, q))
    && (Includes(r.preferredLocations, p.district) ==> Includes(r.preferredLocations, q.district))
    && (p.propertyType == r.propertyType ==> q.propertyType == r.propertyType)
    && (p.bedrooms >= r.requiredBedrooms ==> q.bedrooms >= r.requiredBedrooms)
    && (!r.needsFurnished || p.isFurnished ==> !r.needsFurnished || q.isFurnished)
  }

  predicate MentionsAsMuch(words: seq<string>, s: string, t: string) {
    forall i | 0 <= i < |words| :: Includes(s, words[i]) ==> Includes(t, words[i])
  }

  /** `q` meets every criterion of the request that `p` meets. */
  predicate FitsAsWell(r: Request, p: Property, q: Property) {
    FactsFitAsWell(r, p, q) && MentionsAsMuch(Words(r.lifestyleRequirements), Haystack(p), Haystack(q))
      && (p.isBoosted ==> q.isBoosted)
  }

  lemma {:induction false} MentionsGrow(words: seq<string>, s: string, t: string)
    requires MentionsAsMuch(words, s, t)
    ensures Mentioned(words, s) <= Mentioned(words, t)
    decreases |words|
  {
    if words != [] {
      assert forall i | 0 <= i < |words| - 1 :: words[1..][i] == words[i + 1];
      MentionsGrow(words[1..], s, t);
    }
  }

  lemma {:induction false} FactPointsGrow(r: Request, p: Property, q: Property)
    requires FactsFitAsWell(r, p, q)
    ensures FactPoints(r, p) <= FactPoints(r, q)
  {
  }

  lemma {:induction false} MentionPointsGrow(r: Request, p: Property, q: Property)
    requires MentionsAsMuch(Words(r.lifestyleRequirements), Haystack(p), Haystack(q))
    ensures MentionPoints(r, p) <= MentionPoints(r, q)
  {
    MentionsGrow(Words(r.lifestyleRequirements), Haystack(p), Haystack(q));
  }

  /** A property that fits at least as well never scores lower. */
  lemma {:induction false} BetterFitScoresNoLower(r: Request, p: Property, q: Property)
    requires FitsAsWell(r, p, q)
    ensures RuleScore(r, p) <= RuleScore(r, q)
  {
    FactPointsGrow(r, p, q);
    MentionPointsGrow(r, p, q);
  }

  // ---- What each criterion is worth ----

  lemma {:induction false} FlexibilityInTenths(f: int)
    ensures Round((f - 5) as real * 0.6) == (6 * (f - 5) + 5) / 10
  {
    var n := 6 * (f - 5) + 5;
    assert (f - 5) as real * 0.6 + 0.5 == n as real / 10.0;
    assert n == 10 * (n / 10) + n % 10;
    assert (n / 10) as real <= n as real / 10.0 < (n / 10) as real + 1.0;
  }

  lemma {:induction false} MentionedFrom(words: seq<string>, haystack: string, k: nat)
    requires k <= |words|
    ensures Mentioned(words[k..], haystack) == |set i | k <= i < |words| && Includes(haystack, words[i])|
    decreases |words| - k
  {
    var here := set i | k <= i < |words| && Includes(haystack, words[i]);
    if k == |words| {
      assert here == {};
    } else {
      var later := set i | k + 1 <= i < |words| && Includes(haystack, words[i]);
      MentionedFrom(words, haystack, k + 1);
      assert words[k..][1..] == words[k + 1..];
      assert here == later + (if Includes(haystack, words[k]) then {k} else {});
    }
  }

  lemma {:induction false} MentionedIsCounted(words: seq<string>, haystack: string)
    ensures Mentioned(words, haystack) == |set i | 0 <= i < |words| && Includes(haystack, words[i])|
  {
    MentionedFrom(words, haystack, 0);
    assert words[0..] == words;
  }

  function Spaced(words: seq<string>): string
    requires words != []
  {
    if |words| == 1 then words[0] else words[0] + [' '] + Spaced(words[1..])
  }

  lemma {:induction false} WordEndIs(w: string, rest: string)
    requires (forall i | 0 <= i < |w| :: !IsSpace(w[i])) && (rest == [] || IsSpace(rest[0]))
    ensures WordEnd(w + rest) == |w|
    decreases |w|
  {
    if w == [] {
      assert w + rest == rest;
    } else {
      WordEndIs(w[1..], rest);
      assert (w + rest)[1..] == w[1..] + rest;
    }
  }

  /** Splitting a text at its spaces gives back the words it was made of. */
  lemma {:induction false} SplitOfSpaced(words: seq<string>)
    requires words != []
    requires forall k | 0 <= k < |words| ::
               words[k] != [] && forall i | 0 <= i < |words[k]| :: !IsSpace(words[k][i])
    ensures SplitAtSpaces(Spaced(words)) == words
    decreases |words|
  {
    var w := words[0];
    assert IsSpace(' ');
    if |words| == 1 {
      WordEndIs(w, []);
      assert w + [] == w;
    } else {
      var rest := Spaced(words[1..]);
      SplitOfSpaced(words[1..]);
      WordEndIs(w, [' '] + rest);
      assert w + [' '] + rest == w + ([' '] + rest);
      assert (w + ([' '] + rest))[|w|..] == [' '] + rest && (w + ([' '] + rest))[..|w|] == w;
      assert ([' '] + rest)[1..] == rest && words[1..][0] != [] && rest[0] == words[1..][0][0];
      assert TrimStart([' '] + rest) == rest;
    }
  }

  /** Only the words of more than three characters count. */
  lemma {:induction false} LongWordsCount(pieces: seq<string>, w: string)
    ensures w in LongOnes(pieces) <==> w in pieces && |w| > 3
    decreases |pieces|
  {
    if pieces != [] {
      LongWordsCount(pieces[1..], w);
      assert w in pieces <==> w == pieces[0] || w in pieces[1..];
    }
  }

  /** What a listing that meets no criterion scores: 28, and the flexibility of the request, kept within 5 and 98. */
  lemma {:induction false} NothingMetScores(r: Request, p: Property)
    requires !(r.minBudget <= p.rentAmount <= r.maxBudget) && !Includes(r.preferredLocations, p.district)
    requires p.propertyType != r.propertyType && p.bedrooms < r.requiredBedrooms
    requires r.needsFurnished && !p.isFurnished && !p.isBoosted
    requires forall w | w in Words(r.lifestyleRequirements) :: !Includes(Haystack(p), w)
    ensures RuleSum(r, p) == 28 + (6 * (r.flexibilityScore - 5) + 5) / 10
    ensures RuleScore(r, p) == if RuleSum(r, p) < 5 then 5 else if RuleSum(r, p) > 98 then 98 else RuleSum(r, p)
  {
    var words := Words(r.lifestyleRequirements);
    FlexibilityInTenths(r.flexibilityScore);
    MentionedIsCounted(words, Haystack(p));
    assert forall i | 0 <= i < |words| :: words[i] in words;
    assert (set i | 0 <= i < |words| && Includes(Haystack(p), words[i])) == {};
  }

  /** Coming into the budget adds 40 points, so an unaffordable listing never gains; the place adds 12, the type 8. */
  lemma {:induction false} CriteriaWeigh(r: Request, p: Property, rent: real, district: string)
    ensures r.minBudget <= rent <= r.maxBudget && !(r.minBudget <= p.rentAmount <= r.maxBudget) ==>
              RuleSum(r, p.(rentAmount := rent)) == RuleSum(r, p) + 40
    ensures Includes(r.preferredLocations, district) && !Includes(r.preferredLocations, p.district) ==>
              RuleSum(r, p.(district := district)) == RuleSum(r, p) + 12
    ensures p.propertyType != r.propertyType ==> RuleSum(r, p.(propertyType := r.propertyType)) == RuleSum(r, p) + 8
  {
    SameMentions(r, p, p.(rentAmount := rent));
    SameMentions(r, p, p.(district := district));
    SameMentions(r, p, p.(propertyType := r.propertyType));
  }

  /** Enough bedrooms add 5, and a boost 2. */
  lemma {:induction false} BedroomsAndBoostWeigh(r: Request, p: Property, bedrooms: int)
    ensures p.bedrooms < r.requiredBedrooms <= bedrooms ==>
              RuleSum(r, p.(bedrooms := bedrooms)) == RuleSum(r, p) + 5
    ensures !p.isBoosted ==> RuleSum(r, p.(isBoosted := true)) == RuleSum(r, p) + 2
  {
    SameMentions(r, p, p.(bedrooms := bedrooms));
    SameMentions(r, p, p.(isBoosted := true));
  }

  /** Furniture adds 5 where it is needed; where it is not, its points are given anyway. */
  lemma {:induction false} FurnitureWeighs(r: Request, p: Property)
    ensures !p.isFurnished ==>
              RuleSum(r, p.(isFurnished := true)) == RuleSum(r, p) + (if r.needsFurnished then 5 else 0)
    ensures !r.needsFurnished ==>
              RuleSum(r, p) == RuleSum(r.(needsFurnished := true), p) + (if p.isFurnished then 0 else 5)
  {
    SameMentions(r, p, p.(isFurnished := true));
    assert MentionPoints(r, p) == MentionPoints(r.(needsFurnished := true), p);
  }

  lemma {:induction false} SameMentions(r: Request, p: Property, q: Property)
    requires q.description == p.description && q.propertyAroundServices == p.propertyAroundServices
    ensures MentionPoints(r, q) == MentionPoints(r, p)
  {
  }

  /** Each word of the wishes that the listing mentions adds two points, up to ten, in description or services alike. */
  lemma {:induction false} MentionsWeigh(r: Request, p: Property)
    ensures var words := Words(r.lifestyleRequirements);
            var services := if p.propertyAroundServices.Some? then p.propertyAroundServices.value else "";
            var text := p.description + " " + services;
            var n := |set i | 0 <= i < |words| && Includes(text, words[i])|;
            MentionPoints(r, p) == if n >= 5 then 10 else 2 * n
  {
    MentionedIsCounted(Words(r.lifestyleRequirements), Haystack(p));
  }

  // ---- The hybrid ----

  /** The part of a similarity that counts, from 0 to 100. */
  function SemanticScore(similarity: real): (s: real)
    ensures 0.0 <= s <= 100.0
  {
    (if similarity < 0.0 then 0.0 else if similarity > 1.0 then 1.0 else similarity) * 100.0
  }

  /** With a similarity the score is an integer; without one the rule score stands as it is. */
  function CombineHybridScore(ruleScore: real, similarity: Option<real>): real {
    match similarity
    case None => ruleScore
    case Some(s) => Max(0, Min(100, Round(ruleScore * 0.5 + SemanticScore(s) * 0.5))) as real
  }

  /**
   An integer from 0 to 100, whatever the rule score; and for
   a rule score in that range, within one half of the mean.
   */
  lemma {:induction false} HybridIsNearMean(ruleScore: real, s: real)
    ensures var h := CombineHybridScore(ruleScore, Some(s));
            && h == h.Floor as real && 0.0 <= h <= 100.0
            && (0.0 <= ruleScore <= 100.0 ==>
                  var similarity := if s < 0.0 then 0.0 else if s > 1.0 then 1.0 else s;
                  (ruleScore + 100.0 * similarity) / 2.0 - 0.5 <= h <= (ruleScore + 100.0 * similarity) / 2.0 + 0.5)
  {
    var m := ruleScore * 0.5 + SemanticScore(s) * 0.5;
    var h := Max(0, Min(100, Round(m)));
    assert (h as real).Floor == h;
  }

  /** Raising either part never lowers the score. */
  lemma {:induction false} HybridIsMonotone(r: real, s: real, q: real, t: real)
    requires r <= q && s <= t
    ensures CombineHybridScore(r, Some(s)) <= CombineHybridScore(q, Some(t))
    ensures CombineHybridScore(r, None) <= CombineHybridScore(q, None)
  {
    RoundIsMonotone(r * 0.5 + SemanticScore(s) * 0.5, q * 0.5 + SemanticScore(t) * 0.5);
  }

  /** One score for a request and a property: the rules, and the cosine where both have a vector. */
  method ComputeHybridMatch(request: Request, property: Property, sqrt: real -> real) returns (score: real)
    requires IsSqrt(sqrt)
    ensures 0.0 <= score <= 100.0 && score == score.Floor as real
    ensures !Comparable(request.embedding, property.embedding) ==> score == RuleScore(request, property) as real
    ensures Comparable(request.embedding, property.embedding) ==>
      exists c: real ::
        && -1.0 <= c <= 1.0
        && c * (sqrt(Dot(request.embedding, request.embedding)) * sqrt(Dot(property.embedding, property.embedding)))
           == Dot(request.embedding, property.embedding)
        && score == CombineHybridScore(RuleScore(request, property) as real, Some(c))
  {
    var ruleScore := ScoreRequestAgainstProperty(request, property);
    var similarity := None;
    if |request.embedding| > 0 && |property.embedding| > 0 {
      similarity := CosineSimilarity(request.embedding, property.embedding, sqrt);
    }
    score := CombineHybridScore(ruleScore as real, similarity);
    if similarity.Some? {
      HybridIsNearMean(ruleScore as real, similarity.value);
    }
  }
}
