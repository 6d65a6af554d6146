/**
 The numbers a search text gives: the regular expressions for bedrooms and for the highest rent. Both run
 on a normalised text with its digits in Latin form.
 */
module QueryNumbers {
  import opened Wrappers
  import opened JsText
  import opened TextMatch

  /** The first match of an expression, place by place from the left. */
  function Leftmost(at: string -> Option<nat>, s: string): (r: Option<nat>)
    ensures r.None? ==> forall i | 0 <= i <= |s| :: at(s[i..]).None?
    ensures r.Some? ==> exists i | 0 <= i <= |s| :: at(s[i..]) == r && forall k | 0 <= k < i :: at(s[k..]).None?
  {
    assert s[0..] == s;
    if at(s).Some? then at(s)
    else if s == [] then None
    else
      assert forall i | 1 <= i <= |s| :: s[i..] == s[1..][i - 1..];
      var r := Leftmost(at, s[1..]);
      assert r.Some? ==> exists i | 1 <= i <= |s| :: at(s[i..]) == r && forall k | 0 <= k < i :: at(s[k..]).None? by {
        if r.Some? {
          var j :| 0 <= j <= |s[1..]| && at(s[1..][j..]) == r && forall k | 0 <= k < j :: at(s[1..][k..]).None?;
          assert at(s[j + 1..]) == r;
          forall k | 0 <= k < j + 1 ensures at(s[k..]).None? {
            if k > 0 {
              assert s[k..] == s[1..][k - 1..];
            }
          }
        }
      }
      r
  }

  lemma {:induction false} LeftmostAgrees(f: string -> Option<nat>, g: string -> Option<nat>, s: string)
    requires forall i | 0 <= i <= |s| :: f(s[i..]) == g(s[i..])
    ensures Leftmost(f, s) == Leftmost(g, s)
    decreases |s|
  {
    assert s[0..] == s;
    if s != [] {
      forall i | 0 <= i <= |s[1..]| ensures f(s[1..][i..]) == g(s[1..][i..]) {
        assert s[1..][i..] == s[i + 1..];
      }
      LeftmostAgrees(f, g, s[1..]);
    }
  }

  // ---- Digits ----

  /** Arabic-Indic digits up to `last` become Latin ones. */
  function LatinDigit(c: char, last: nat): char
    requires last <= 9
  {
    if '\U{0660}' <= c <= '\U{0660}' + last as char then '0' + (c - '\U{0660}') else c
  }

  function LatinDigits(s: string, last: nat): string
    requires last <= 9
  {
    Mapped(c => LatinDigit(c, last), s)
  }

  const ARABIC_INDIC_DIGITS: string :=
    "\U{0660}\U{0661}\U{0662}\U{0663}\U{0664}\U{0665}\U{0666}\U{0667}\U{0668}\U{0669}"

  const LATIN_DIGITS: string := "0123456789"

  /** Each digit up to the last one becomes the Latin digit of the same value; no other character changes. */
  lemma {:induction false} DigitsKeepTheirValue(c: char, last: nat)
    requires last <= 9
    ensures forall k | 0 <= k <= last :: LatinDigit(ARABIC_INDIC_DIGITS[k], last) == LATIN_DIGITS[k]
    ensures c !in ARABIC_INDIC_DIGITS[..last + 1] ==> LatinDigit(c, last) == c
  {
    if '\U{0660}' <= c <= '\U{0660}' + last as char {
      assert ARABIC_INDIC_DIGITS[(c - '\U{0660}') as int] == c;
    }
  }

  predicate IsDigit(c: char) {
    '0' <= c <= '9'
  }

  /** How many digits the text begins with, `most` at most. */
  function DigitsAhead(s: string, most: nat): (n: nat)
    ensures n <= most && n <= |s| && forall i | 0 <= i < n :: IsDigit(s[i])
    ensures n == most || n == |s| || !IsDigit(s[n])
  {
    if most == 0 || s == [] || !IsDigit(s[0]) then 0 else 1 + DigitsAhead(s[1..], most - 1)
  }

  /** `Number` of a run of digits. */
  function Value(s: string): nat
    requires forall i | 0 <= i < |s| :: IsDigit(s[i])
  {
    if s == [] then 0
    else
      assert IsDigit(s[|s| - 1]);
      10 * Value(s[..|s| - 1]) + (s[|s| - 1] - '0') as nat
  }

  /** A number written in decimal with so many digits. */
  function Decimal(n: nat, digits: nat): (s: string)
    ensures |s| == digits && forall i | 0 <= i < digits :: IsDigit(s[i])
  {
    if digits == 0 then [] else Decimal(n / 10, digits - 1) + [LATIN_DIGITS[n % 10]]
  }

  lemma {:induction false} ValueOfDecimal(n: nat, digits: nat)
    requires n < TenTo(digits)
    ensures Value(Decimal(n, digits)) == n
    decreases digits
  {
    if digits > 0 {
      ValueOfDecimal(n / 10, digits - 1);
      assert Decimal(n, digits)[..digits - 1] == Decimal(n / 10, digits - 1);
      assert LATIN_DIGITS[n % 10] == '0' + (n % 10) as char;
    }
  }

  function TenTo(n: nat): nat {
    if n == 0 then 1 else 10 * TenTo(n - 1)
  }

  lemma {:induction false} ValueIsBounded(s: string)
    requires forall i | 0 <= i < |s| :: IsDigit(s[i])
    ensures Value(s) < TenTo(|s|)
    decreases |s|
  {
    if s != [] {
      ValueIsBounded(s[..|s| - 1]);
      assert IsDigit(s[|s| - 1]);
    }
  }

  // ---- The highest rent ----

  /** What stands behind the parts of a phrase, where the text begins with them, any white space between them. */
  function Behind(parts: seq<string>, s: string): Option<string> {
    if parts == [] then Some(s)
    else if parts[0] <= s then Behind(parts[1..], TrimStart(s[|parts[0]|..]))
    else None
  }

  /** Three to seven digits. */
  function LimitAhead(s: string): Option<nat> {
    var n := DigitsAhead(s, 7);
    if n >= 3 then Some(Value(s[..n])) else None
  }

  /** The phrases are alternatives, tried in their order. */
  function LimitAt(phrases: seq<seq<string>>, s: string): Option<nat> {
    if phrases == [] then None
    else
      var behind := Behind(phrases[0], s);
      var limit := if behind.Some? then LimitAhead(behind.value) else None;
      if limit.Some? then limit else LimitAt(phrases[1..], s)
  }

  function ReadLimit(phrases: seq<seq<string>>, s: string): Option<nat> {
    Leftmost(t => LimitAt(phrases, t), s)
  }

  lemma {:induction false} DigitsCounted(s: string, most: nat)
    requires forall i | 0 <= i < |s| :: IsDigit(s[i])
    ensures DigitsAhead(s, most) == if |s| <= most then |s| else most
  {
  }

  /** Behind a phrase of one word, and a space, a run of digits is read: of three at least, the first seven. */
  lemma {:induction false} LimitBehindWord(phrases: seq<seq<string>>, k: nat, w: string, n: string)
    requires k < |phrases| && phrases[k] == [w] && forall i | 0 <= i < |n| :: IsDigit(n[i])
    requires forall j | 0 <= j < |phrases| && j != k :: Behind(phrases[j], w + [' '] + n).None?
    ensures LimitAt(phrases, w + [' '] + n)
            == if |n| < 3 then None else Some(Value(n[..if |n| <= 7 then |n| else 7]))
    decreases k
  {
    var s := w + [' '] + n;
    if k == 0 {
      BehindWord(w, n);
      DigitsCounted(n, 7);
      NoPhraseAhead(phrases[1..], s);
    } else {
      forall j | 0 <= j < |phrases[1..]| && j != k - 1 ensures Behind(phrases[1..][j], s).None? {
        assert phrases[1..][j] == phrases[j + 1];
      }
      assert Behind(phrases[0], s).None?;
      LimitBehindWord(phrases[1..], k - 1, w, n);
    }
  }

  lemma {:induction false} BehindWord(w: string, n: string)
    requires forall i | 0 <= i < |n| :: IsDigit(n[i])
    ensures Behind([w], w + [' '] + n) == Some(n)
  {
    var s := w + [' '] + n;
    assert s[|w|..] == [' '] + n && ([' '] + n)[1..] == n && [w][1..] == [];
    assert w <= s && IsSpace(' ');
    assert n != [] ==> IsDigit(n[0]);
    assert TrimStart(n) == n && TrimStart([' '] + n) == n;
    assert Behind([], n) == Some(n);
    assert Behind([w], s) == Behind([w][1..], TrimStart(s[|w|..]));
  }

  lemma {:induction false} LimitAtIsBounded(phrases: seq<seq<string>>, s: string)
    ensures LimitAt(phrases, s).Some? ==> LimitAt(phrases, s).value < 10_000_000
    decreases |phrases|
  {
    if phrases != [] {
      LimitAtIsBounded(phrases[1..], s);
      var behind := Behind(phrases[0], s);
      if behind.Some? {
        var n := DigitsAhead(behind.value, 7);
        ValueIsBounded(behind.value[..n]);
        TenToGrows(n);
      }
    }
  }

  lemma {:induction false} TenToGrows(n: nat)
    requires n <= 7
    ensures TenTo(n) <= 10_000_000
    decreases 7 - n
  {
    if n < 7 {
      TenToGrows(n + 1);
    } else {
      assert TenTo(6) == 10 * 10 * TenTo(4) && TenTo(4) == 10 * 10 * TenTo(2);
    }
  }

  lemma {:induction false} ReadLimitIsBounded(phrases: seq<seq<string>>, s: string)
    ensures ReadLimit(phrases, s).Some? ==> ReadLimit(phrases, s).value < 10_000_000
  {
    var r := ReadLimit(phrases, s);
    if r.Some? {
      var i :| 0 <= i <= |s| && LimitAt(phrases, s[i..]) == r;
      LimitAtIsBounded(phrases, s[i..]);
    }
  }

  predicate Holds(parts: seq<string>, c: char) {
    exists i | 0 <= i < |parts| :: c in parts[i]
  }

  /** The phrases that are spelled without a character. */
  function Without(phrases: seq<seq<string>>, c: char): seq<seq<string>> {
    if phrases == [] then []
    else (if Holds(phrases[0], c) then [] else [phrases[0]]) + Without(phrases[1..], c)
  }

  lemma {:induction false} WithoutKeeps(phrases: seq<seq<string>>, c: char)
    requires forall i | 0 <= i < |phrases| :: !Holds(phrases[i], c)
    ensures Without(phrases, c) == phrases
    decreases |phrases|
  {
    if phrases != [] {
      WithoutKeeps(phrases[1..], c);
      assert phrases == [phrases[0]] + phrases[1..];
    }
  }

  lemma {:induction false} WithoutCons(p: seq<string>, phrases: seq<seq<string>>, c: char)
    ensures Without([p] + phrases, c) == (if Holds(p, c) then [] else [p]) + Without(phrases, c)
  {
    assert ([p] + phrases)[1..] == phrases;
  }

  lemma {:induction false} WithoutInParts(before: seq<seq<string>>, after: seq<seq<string>>, c: char)
    ensures Without(before + after, c) == Without(before, c) + Without(after, c)
    decreases |before|
  {
    if before == [] {
      assert before + after == after;
    } else {
      WithoutInParts(before[1..], after, c);
      assert before + after == [before[0]] + (before[1..] + after);
      WithoutCons(before[0], before[1..], c);
      WithoutCons(before[0], before[1..] + after, c);
      assert before == [before[0]] + before[1..];
    }
  }

  lemma {:induction false} TrimmedLacks(s: string, c: char)
    requires c !in s
    ensures c !in TrimStart(s)
    decreases |s|
  {
    if s != [] && IsSpace(s[0]) {
      TrimmedLacks(s[1..], c);
    }
  }

  lemma {:induction false} PhraseNeedsCharacter(parts: seq<string>, s: string, c: char)
    requires c !in s && Holds(parts, c)
    ensures Behind(parts, s).None?
    decreases |parts|
  {
    var i :| 0 <= i < |parts| && c in parts[i];
    if parts[0] <= s {
      assert forall k | 0 <= k < |parts[0]| :: parts[0][k] == s[k];
      assert i > 0;
      TrimmedLacks(s[|parts[0]|..], c);
      assert parts[1..][i - 1] == parts[i];
      PhraseNeedsCharacter(parts[1..], TrimStart(s[|parts[0]|..]), c);
    }
  }

  lemma {:induction false} LimitAtWithout(phrases: seq<seq<string>>, s: string, c: char)
    requires c !in s
    ensures LimitAt(phrases, s) == LimitAt(Without(phrases, c), s)
    decreases |phrases|
  {
    if phrases != [] {
      LimitAtWithout(phrases[1..], s, c);
      if Holds(phrases[0], c) {
        PhraseNeedsCharacter(phrases[0], s, c);
        assert Without(phrases, c) == Without(phrases[1..], c);
      } else {
        assert Without(phrases, c)[1..] == Without(phrases[1..], c);
      }
    }
  }

  /** A phrase spelled with a character that the text lacks is no alternative at all. */
  lemma {:induction false} ReadLimitWithout(phrases: seq<seq<string>>, s: string, c: char)
    requires c !in s
    ensures ReadLimit(phrases, s) == ReadLimit(Without(phrases, c), s)
  {
    var live := Without(phrases, c);
    forall i | 0 <= i <= |s| ensures LimitAt(phrases, s[i..]) == LimitAt(live, s[i..]) {
      LimitAtWithout(phrases, s[i..], c);
    }
    LeftmostAgrees(t => LimitAt(phrases, t), t => LimitAt(live, t), s);
  }

  /** A text in which no phrase begins gives no limit. */
  lemma {:induction false} NothingToRead(phrases: seq<seq<string>>, s: string)
    requires forall i, k | 0 <= i <= |s| && 0 <= k < |phrases| :: Behind(phrases[k], s[i..]).None?
    ensures ReadLimit(phrases, s).None?
  {
    forall i | 0 <= i <= |s| ensures LimitAt(phrases, s[i..]).None? {
      NoPhraseAhead(phrases, s[i..]);
    }
  }

  lemma {:induction false} NoPhraseAhead(phrases: seq<seq<string>>, s: string)
    requires forall k | 0 <= k < |phrases| :: Behind(phrases[k], s).None?
    ensures LimitAt(phrases, s).None?
    decreases |phrases|
  {
    if phrases != [] {
      NoPhraseAhead(phrases[1..], s);
    }
  }

  // ---- Bedrooms ----

  predicate Ended(s: string) {
    s == [] || IsSpace(s[0])
  }

  /** One of the words stands at the front, whole to its end. */
  predicate WordAhead(words: seq<string>, s: string) {
    exists i | 0 <= i < |words| :: words[i] <= s && Ended(s[|words[i]|..])
  }

  function CountAt(words: seq<string>, s: string): Option<nat> {
    if s != [] && '1' <= s[0] <= '5' && WordAhead(words, TrimStart(s[1..])) then Some((s[0] - '0') as nat) else None
  }

  function CountBehindSpace(words: seq<string>, s: string): Option<nat> {
    if s != [] && IsSpace(s[0]) then CountAt(words, s[1..]) else None
  }

  /** At the front of the text, or else behind the first white space that a count follows. */
  function ReadCount(words: seq<string>, s: string): Option<nat> {
    if CountAt(words, s).Some? then CountAt(words, s) else Leftmost(t => CountBehindSpace(words, t), s)
  }

  /** A count in the tokens: a digit with the word in the same token, or in the next one. */
  function CountInTokens(words: seq<string>, ts: seq<string>): Option<nat>
    requires AreTokens(ts)
  {
    if ts == [] then None
    else
      assert IsToken(ts[0]);
      if '1' <= ts[0][0] <= '5' && (if |ts[0]| > 1 then ts[0][1..] in words else |ts| > 1 && ts[1] in words)
      then Some((ts[0][0] - '0') as nat)
      else CountInTokens(words, ts[1..])
  }

  lemma {:induction false} WholeWord(w: string, t: string, rest: string)
    requires IsToken(w) && IsToken(t) && Ended(rest)
    ensures w <= t + rest && Ended((t + rest)[|w|..]) <==> w == t
  {
    var u := t + rest;
    assert u[|t|..] == rest && u[..|t|] == t;
    assert forall k | 0 <= k < |t| :: !IsSpace(u[k]) && !Ended(u[k..]);
    assert rest != [] ==> IsSpace(u[|t|]);
    if w <= u && Ended(u[|w|..]) {
      assert forall k | 0 <= k < |w| :: u[k] == w[k];
      assert |w| == |t|;
      assert w == u[..|w|] == t;
    }
  }

  lemma {:induction false} WordAheadIsToken(words: seq<string>, t: string, rest: string)
    requires AreTokens(words) && IsToken(t) && Ended(rest)
    ensures WordAhead(words, t + rest) <==> t in words
  {
    forall i | 0 <= i < |words| ensures words[i] <= t + rest && Ended((t + rest)[|words[i]|..]) <==> words[i] == t {
      assert IsToken(words[i]);
      WholeWord(words[i], t, rest);
    }
  }

  /** What follows the first token of a joined text. */
  function Tail(ts: seq<string>): string
    requires ts != []
  {
    if |ts| == 1 then [] else [' '] + Join(ts[1..])
  }

  lemma {:induction false} JoinHead(ts: seq<string>)
    requires ts != []
    ensures Join(ts) == ts[0] + Tail(ts) && Ended(Tail(ts))
  {
    assert IsSpace(' ');
    if |ts| > 1 {
      assert ts[0] + [' '] + Join(ts[1..]) == ts[0] + Tail(ts);
    } else {
      assert ts[0] + [] == ts[0];
    }
  }

  lemma {:induction false} WordAheadOfJoin(words: seq<string>, ts: seq<string>)
    requires AreTokens(words) && AreTokens(ts)
    ensures WordAhead(words, Join(ts)) <==> ts != [] && ts[0] in words
  {
    if ts != [] {
      assert IsToken(ts[0]);
      JoinHead(ts);
      WordAheadIsToken(words, ts[0], Tail(ts));
    } else {
      forall i | 0 <= i < |words| ensures !(words[i] <= []) {
        assert IsToken(words[i]);
      }
    }
  }

  /** Behind a digit that is a token of its own comes the next token. */
  lemma {:induction false} WordBehindDigit(words: seq<string>, ts: seq<string>)
    requires AreTokens(words) && AreTokens(ts) && ts != []
    ensures WordAhead(words, TrimStart(Tail(ts))) <==> |ts| > 1 && ts[1] in words
  {
    if |ts| > 1 {
      JoinIsTight(ts[1..]);
      TrimStartOfTight(Join(ts[1..]));
      WordAheadOfJoin(words, ts[1..]);
    } else {
      WordAheadOfJoin(words, []);
    }
  }

  lemma {:induction false} CountAtFirstToken(words: seq<string>, ts: seq<string>)
    requires AreTokens(words) && AreTokens(ts) && ts != []
    ensures CountAt(words, Join(ts))
            == if '1' <= ts[0][0] <= '5' && (if |ts[0]| > 1 then ts[0][1..] in words else |ts| > 1 && ts[1] in words)
               then Some((ts[0][0] - '0') as nat) else None
  {
    var t, rest := ts[0], Tail(ts);
    assert IsToken(t);
    JoinHead(ts);
    assert Join(ts)[1..] == t[1..] + rest;
    if |t| > 1 {
      assert IsToken(t[1..]);
      assert TrimStart(t[1..] + rest) == t[1..] + rest;
      WordAheadIsToken(words, t[1..], rest);
    } else {
      assert t[1..] + rest == rest;
      WordBehindDigit(words, ts);
    }
  }

  lemma {:induction false} SkipPlaces(at: string -> Option<nat>, t: string, rest: string)
    requires forall i | 0 <= i < |t| :: at(t[i..] + rest).None?
    ensures Leftmost(at, t + rest) == Leftmost(at, rest)
    decreases |t|
  {
    if t == [] {
      assert t + rest == rest;
    } else {
      assert t[0..] == t;
      forall i | 0 <= i < |t[1..]| ensures at(t[1..][i..] + rest).None? {
        assert t[1..][i..] == t[i + 1..];
      }
      SkipPlaces(at, t[1..], rest);
      assert (t + rest)[1..] == t[1..] + rest;
    }
  }

  /** No count begins inside a token. */
  lemma {:induction false} SkipToken(words: seq<string>, t: string, rest: string)
    requires forall i | 0 <= i < |t| :: !IsSpace(t[i])
    ensures var at := (u: string) => CountBehindSpace(words, u); Leftmost(at, t + rest) == Leftmost(at, rest)
  {
    SkipPlaces((u: string) => CountBehindSpace(words, u), t, rest);
  }

  lemma {:induction false} ReadCountStep(words: seq<string>, ts: seq<string>)
    requires AreTokens(ts) && ts != []
    ensures var here := CountAt(words, Join(ts));
            ReadCount(words, Join(ts))
            == if here.Some? then here else if |ts| == 1 then None else ReadCount(words, Join(ts[1..]))
  {
    assert IsToken(ts[0]);
    JoinHead(ts);
    SkipToken(words, ts[0], Tail(ts));
    if |ts| > 1 {
      assert IsSpace(' ');
      assert Tail(ts)[1..] == Join(ts[1..]);
    }
  }

  /** On tokens joined by single spaces, the expression finds the first count among the tokens. */
  lemma {:induction false} ReadCountByTokens(words: seq<string>, ts: seq<string>)
    requires AreTokens(words) && AreTokens(ts)
    ensures ReadCount(words, Join(ts)) == CountInTokens(words, ts)
    decreases |ts|
  {
    if ts != [] {
      assert IsToken(ts[0]);
      CountAtFirstToken(words, ts);
      ReadCountStep(words, ts);
      if |ts| > 1 {
        ReadCountByTokens(words, ts[1..]);
      } else {
        assert ts[1..] == [];
      }
    }
  }

  lemma {:induction false} CountIsSmall(words: seq<string>, ts: seq<string>)
    requires AreTokens(ts)
    ensures CountInTokens(words, ts).Some? ==> 1 <= CountInTokens(words, ts).value <= 5
    decreases |ts|
  {
    if ts != [] {
      assert IsToken(ts[0]);
      CountIsSmall(words, ts[1..]);
    }
  }
}
