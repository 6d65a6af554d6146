/**
 The text a query and a term are compared by, and whole-phrase matching on it. The alphabet is abstract:
 what counts as a letter or digit, and what lower case does to a character.
 */
module TextMatch {
  import opened JsText

  datatype Alphabet = Alphabet(isWord: char -> bool, lower: char -> char)

  const TATWEEL := '\U{0640}'

  /** The alef forms become alef, alef maksura becomes yeh, teh marbuta becomes heh. */
  function Fold(c: char): char {
    if c == '\U{0623}' || c == '\U{0625}' || c == '\U{0622}' || c == '\U{0671}' then '\U{0627}'
    else if c == '\U{0649}' then '\U{064A}'
    else if c == '\U{0629}' then '\U{0647}'
    else c
  }

  /** White space is no letter, and lower case neither comes nor goes twice, nor touches what folding makes. */
  ghost predicate Sound(a: Alphabet) {
    && (forall c :: IsSpace(c) ==> !a.isWord(c))
    && (forall c :: a.lower(a.lower(c)) == a.lower(c))
    && a.lower('\U{0627}') == '\U{0627}' && a.lower('\U{064A}') == '\U{064A}' && a.lower('\U{0647}') == '\U{0647}'
    && a.lower(' ') == ' '
  }

  // ---- The normaliser, stage by stage ----

  function Mapped(f: char -> char, s: string): (r: string)
    ensures |r| == |s| && forall i | 0 <= i < |s| :: r[i] == f(s[i])
  {
    seq(|s|, i requires 0 <= i < |s| => f(s[i]))
  }

  function WithoutTatweel(s: string): string {
    if s == [] then [] else (if s[0] == TATWEEL then [] else [s[0]]) + WithoutTatweel(s[1..])
  }

  /** How far the text goes on being, or not being, made of letters. */
  function RunEnd(a: Alphabet, s: string, word: bool): (n: nat)
    ensures n <= |s| && (n < |s| ==> a.isWord(s[n]) != word)
    ensures forall i | 0 <= i < n :: a.isWord(s[i]) == word
  {
    if s == [] || a.isWord(s[0]) != word then 0 else 1 + RunEnd(a, s[1..], word)
  }

  /** Every run without a letter becomes one space. */
  function Spaced(a: Alphabet, s: string): string
    decreases |s|
  {
    if s == [] then []
    else if a.isWord(s[0]) then [s[0]] + Spaced(a, s[1..])
    else
      [' '] + Spaced(a, s[RunEnd(a, s, false)..])
  }

  /** Every run of white space becomes one space. */
  function Collapsed(s: string): string
    decreases |s|
  {
    if s == [] then []
    else if !IsSpace(s[0]) then [s[0]] + Collapsed(s[1..])
    else [' '] + Collapsed(TrimStart(s))
  }

  function Cleaned(a: Alphabet, s: string): string {
    WithoutTatweel(Mapped(Fold, Mapped(a.lower, s)))
  }

  function Normalize(a: Alphabet, s: string): string {
    Collapsed(Trim(Spaced(a, Cleaned(a, s))))
  }

  // ---- The tokens of a text ----

  /** The runs of letters of a text. */
  function Runs(a: Alphabet, s: string): seq<string>
    decreases |s|
  {
    if s == [] then []
    else if !a.isWord(s[0]) then Runs(a, s[1..])
    else
      var n := RunEnd(a, s, true);
      assert n > 0;
      [s[..n]] + Runs(a, s[n..])
  }

  /** What a query or a term consists of. */
  function Tokens(a: Alphabet, s: string): seq<string> {
    Runs(a, Cleaned(a, s))
  }

  function Join(ts: seq<string>): string {
    if ts == [] then [] else if |ts| == 1 then ts[0] else ts[0] + [' '] + Join(ts[1..])
  }

  predicate IsToken(t: string) {
    t != [] && forall i | 0 <= i < |t| :: !IsSpace(t[i])
  }

  predicate AreTokens(ts: seq<string>) {
    forall i | 0 <= i < |ts| :: IsToken(ts[i])
  }

  lemma {:induction false} RunsAreTokens(a: Alphabet, s: string)
    requires Sound(a)
    ensures AreTokens(Runs(a, s))
    decreases |s|
  {
    if s != [] {
      if a.isWord(s[0]) {
        RunsAreTokens(a, s[RunEnd(a, s, true)..]);
      } else {
        RunsAreTokens(a, s[1..]);
      }
    }
  }

  /** The text between the separators, each token followed by one. */
  function Trailed(ts: seq<string>): string {
    if ts == [] then [] else ts[0] + [' '] + Trailed(ts[1..])
  }

  lemma {:induction false} TrailedJoin(ts: seq<string>)
    ensures Trailed(ts) == if ts == [] then [] else Join(ts) + [' ']
    decreases |ts|
  {
    if |ts| > 1 {
      TrailedJoin(ts[1..]);
    } else if |ts| == 1 {
      assert ts[1..] == [];
    }
  }

  lemma {:induction false} SkipNonWords(a: Alphabet, s: string)
    requires s != [] && !a.isWord(s[0])
    ensures Runs(a, s) == Runs(a, s[RunEnd(a, s, false)..])
    decreases |s|
  {
    var n := RunEnd(a, s, false);
    if |s| > 1 && !a.isWord(s[1]) {
      SkipNonWords(a, s[1..]);
      assert s[1..][n - 1..] == s[n..];
    } else {
      assert n == 1;
    }
  }

  lemma {:induction false} SpacedWord(a: Alphabet, s: string)
    requires s != [] && a.isWord(s[0])
    ensures Spaced(a, s) == s[..RunEnd(a, s, true)] + Spaced(a, s[RunEnd(a, s, true)..])
    decreases |s|
  {
    var n := RunEnd(a, s, true);
    if |s| > 1 && a.isWord(s[1]) {
      SpacedWord(a, s[1..]);
      assert s[1..][n - 1..] == s[n..] && s[..n] == [s[0]] + s[1..][..n - 1];
    } else {
      assert n == 1 && s[..1] == [s[0]];
    }
  }

  /** A text that begins with a letter, spaced: its runs joined, and perhaps one space behind. */
  lemma {:induction false} SpacedIsJoin(a: Alphabet, s: string)
    requires s == [] || a.isWord(s[0])
    ensures s == [] <==> Runs(a, s) == []
    ensures Spaced(a, s) == Join(Runs(a, s)) || Spaced(a, s) == Join(Runs(a, s)) + [' ']
    decreases |s|
  {
    if s != [] {
      var n := RunEnd(a, s, true);
      var rest := s[n..];
      SpacedWord(a, s);
      assert Runs(a, s) == [s[..n]] + Runs(a, rest);
      if rest == [] {
        assert Spaced(a, s) == s[..n];
      } else {
        SkipNonWords(a, rest);
        var next := rest[RunEnd(a, rest, false)..];
        assert Spaced(a, rest) == [' '] + Spaced(a, next);
        SpacedIsJoin(a, next);
        if next == [] {
          assert Spaced(a, s) == s[..n] + [' '];
        } else {
          assert Runs(a, s)[1..] == Runs(a, next);
          assert Spaced(a, s) == s[..n] + [' '] + Spaced(a, next);
        }
      }
    }
  }

  predicate Tight(s: string) {
    s == [] || (!IsSpace(s[0]) && !IsSpace(s[|s| - 1]))
  }

  lemma {:induction false} JoinIsTight(ts: seq<string>)
    requires AreTokens(ts)
    ensures Tight(Join(ts)) && (ts == [] <==> Join(ts) == [])
    decreases |ts|
  {
    if ts != [] {
      assert IsToken(ts[0]);
      if |ts| > 1 {
        JoinIsTight(ts[1..]);
        var j := Join(ts);
        assert j == ts[0] + [' '] + Join(ts[1..]);
        assert j[|j| - 1] == Join(ts[1..])[|Join(ts[1..])| - 1];
        assert j[0] == ts[0][0];
      }
    }
  }

  lemma {:induction false} TrimStartOfTight(s: string)
    requires Tight(s)
    ensures TrimStart(s) == s && TrimStart([' '] + s) == s
  {
    assert ([' '] + s)[1..] == s;
  }

  lemma {:induction false} TrimLeading(s: string)
    ensures Trim([' '] + s) == Trim(s)
  {
    assert ([' '] + s)[1..] == s;
  }

  lemma {:induction false} TrimOfTight(s: string)
    requires Tight(s)
    ensures Trim(s) == s && Trim(s + [' ']) == s
  {
    var t := s + [' '];
    assert t[..|t| - 1] == s;
    if s == [] {
      assert t[1..] == [];
    } else {
      assert TrimStart(t) == t;
    }
  }

  lemma {:induction false} TrimOfPadded(s: string, t: string)
    requires Tight(s)
    requires t == s || t == s + [' '] || t == [' '] + s || t == [' '] + (s + [' '])
    ensures Trim(t) == s
  {
    TrimOfTight(s);
    TrimLeading(s);
    TrimLeading(s + [' ']);
  }

  lemma {:induction false} CollapsedToken(t: string, rest: string)
    requires forall i | 0 <= i < |t| :: !IsSpace(t[i])
    ensures Collapsed(t + rest) == t + Collapsed(rest)
    decreases |t|
  {
    if t == [] {
      assert t + rest == rest;
    } else {
      assert (t + rest)[1..] == t[1..] + rest;
      CollapsedToken(t[1..], rest);
      assert t == [t[0]] + t[1..];
    }
  }

  lemma {:induction false} CollapsedSpace(s: string)
    requires Tight(s)
    ensures Collapsed([' '] + s) == [' '] + Collapsed(s)
  {
    TrimStartOfTight(s);
  }

  lemma {:induction false} CollapsedMore(t: string, rest: string)
    requires IsToken(t) && Tight(rest) && Collapsed(rest) == rest
    ensures Collapsed(t + [' '] + rest) == t + [' '] + rest
  {
    CollapsedSpace(rest);
    CollapsedToken(t, [' '] + rest);
    assert t + [' '] + rest == t + ([' '] + rest);
  }

  lemma {:induction false} CollapsedOne(t: string)
    requires IsToken(t)
    ensures Collapsed(t) == t
  {
    CollapsedToken(t, []);
    assert t + [] == t;
  }

  lemma {:induction false} CollapsedJoin(ts: seq<string>)
    requires AreTokens(ts)
    ensures Collapsed(Join(ts)) == Join(ts)
    decreases |ts|
  {
    if ts != [] {
      assert IsToken(ts[0]);
      if |ts| == 1 {
        CollapsedOne(ts[0]);
      } else {
        CollapsedJoin(ts[1..]);
        JoinIsTight(ts[1..]);
        CollapsedMore(ts[0], Join(ts[1..]));
      }
    }
  }

  /** What the stages of the normaliser come to: the tokens, one space between any two. */
  lemma {:induction false} NormalizeJoinsTokens(a: Alphabet, s: string)
    requires Sound(a)
    ensures Normalize(a, s) == Join(Tokens(a, s))
  {
    var c := Cleaned(a, s);
    var ts := Runs(a, c);
    RunsAreTokens(a, c);
    JoinIsTight(ts);
    CollapsedJoin(ts);
    if c != [] && !a.isWord(c[0]) {
      var next := c[RunEnd(a, c, false)..];
      SkipNonWords(a, c);
      SpacedIsJoin(a, next);
      assert Spaced(a, c) == [' '] + Spaced(a, next);
    } else {
      SpacedIsJoin(a, c);
    }
    TrimOfPadded(Join(ts), Spaced(a, c));
  }

  // ---- Normalising twice ----

  predicate Settled(a: Alphabet, c: char) {
    a.lower(c) == c && Fold(c) == c && c != TATWEEL
  }

  predicate AllSettled(a: Alphabet, s: string) {
    forall i | 0 <= i < |s| :: Settled(a, s[i])
  }

  lemma {:induction false} WithoutTatweelSettles(a: Alphabet, s: string)
    requires forall i | 0 <= i < |s| :: s[i] == TATWEEL || Settled(a, s[i])
    ensures AllSettled(a, WithoutTatweel(s))
    decreases |s|
  {
    if s != [] {
      WithoutTatweelSettles(a, s[1..]);
    }
  }

  lemma {:induction false} CleanedSettles(a: Alphabet, s: string)
    requires Sound(a)
    ensures AllSettled(a, Cleaned(a, s))
  {
    var folded := Mapped(Fold, Mapped(a.lower, s));
    forall i | 0 <= i < |folded| ensures folded[i] == TATWEEL || Settled(a, folded[i]) {
      var c := a.lower(s[i]);
      assert folded[i] == Fold(c) && a.lower(c) == c;
    }
    WithoutTatweelSettles(a, folded);
  }

  lemma {:induction false} WithoutTatweelKeeps(s: string)
    requires forall i | 0 <= i < |s| :: s[i] != TATWEEL
    ensures WithoutTatweel(s) == s
    decreases |s|
  {
    if s != [] {
      WithoutTatweelKeeps(s[1..]);
      assert s == [s[0]] + s[1..];
    }
  }

  lemma {:induction false} CleanedKeepsSettled(a: Alphabet, s: string)
    requires AllSettled(a, s)
    ensures Cleaned(a, s) == s
  {
    assert Mapped(a.lower, s) == s;
    assert Mapped(Fold, s) == s;
    WithoutTatweelKeeps(s);
  }

  /** The tokens a clean text has: letters only, none of them left to fold. */
  predicate AreClean(a: Alphabet, ts: seq<string>) {
    forall i | 0 <= i < |ts| :: ts[i] != [] && AllSettled(a, ts[i]) && RunEnd(a, ts[i], true) == |ts[i]|
  }

  lemma {:induction false} RunEndIs(a: Alphabet, s: string, n: nat)
    requires n <= |s| && (n < |s| ==> !a.isWord(s[n]))
    requires forall i | 0 <= i < n :: a.isWord(s[i])
    ensures RunEnd(a, s, true) == n
    decreases |s|
  {
    if n > 0 {
      RunEndIs(a, s[1..], n - 1);
    }
  }

  lemma {:induction false} RunsAreClean(a: Alphabet, s: string)
    requires AllSettled(a, s)
    ensures AreClean(a, Runs(a, s))
    decreases |s|
  {
    if s != [] {
      if a.isWord(s[0]) {
        var n := RunEnd(a, s, true);
        RunEndIs(a, s[..n], n);
        RunsAreClean(a, s[RunEnd(a, s, true)..]);
      } else {
        RunsAreClean(a, s[1..]);
      }
    }
  }

  lemma {:induction false} JoinSettles(a: Alphabet, ts: seq<string>)
    requires Sound(a) && AreClean(a, ts)
    ensures AllSettled(a, Join(ts))
    decreases |ts|
  {
    if |ts| > 1 {
      JoinSettles(a, ts[1..]);
    }
  }

  lemma {:induction false} RunsOfToken(a: Alphabet, t: string, rest: string)
    requires t != [] && RunEnd(a, t, true) == |t| && (rest == [] || !a.isWord(rest[0]))
    ensures Runs(a, t + rest) == [t] + Runs(a, rest)
  {
    RunEndIs(a, t + rest, |t|);
    assert (t + rest)[..|t|] == t && (t + rest)[|t|..] == rest;
  }

  lemma {:induction false} RunsOfSpaced(a: Alphabet, t: string, rest: string)
    requires t != [] && RunEnd(a, t, true) == |t| && !a.isWord(' ')
    ensures Runs(a, t + [' '] + rest) == [t] + Runs(a, rest)
  {
    RunsOfToken(a, t, [' '] + rest);
    assert t + [' '] + rest == t + ([' '] + rest);
    assert ([' '] + rest)[1..] == rest;
  }

  lemma {:induction false} RunsOfJoin(a: Alphabet, ts: seq<string>)
    requires Sound(a) && AreClean(a, ts)
    ensures Runs(a, Join(ts)) == ts
    decreases |ts|
  {
    if |ts| == 1 {
      RunsOfToken(a, ts[0], []);
      assert ts[0] + [] == ts[0];
    } else if |ts| > 1 {
      RunsOfJoin(a, ts[1..]);
      assert IsSpace(' ');
      RunsOfSpaced(a, ts[0], Join(ts[1..]));
    }
  }

  lemma {:induction false} TokensAreClean(a: Alphabet, s: string)
    requires Sound(a)
    ensures AreClean(a, Tokens(a, s))
  {
    CleanedSettles(a, s);
    RunsAreClean(a, Cleaned(a, s));
  }

  /** A normalised text holds none of the characters that normalising replaces. */
  lemma {:induction false} NormalizeSettles(a: Alphabet, s: string)
    requires Sound(a)
    ensures AllSettled(a, Normalize(a, s))
    ensures forall c | c in Normalize(a, s) :: a.lower(c) == c && c !in REPLACED
  {
    NormalizeJoinsTokens(a, s);
    TokensAreClean(a, s);
    JoinSettles(a, Tokens(a, s));
    forall c | c in Normalize(a, s) ensures a.lower(c) == c && c !in REPLACED {
      assert Settled(a, c);
    }
  }

  /** Alef with hamza, madda or wasla, alef maksura, teh marbuta and tatweel. */
  const REPLACED := {'\U{0623}', '\U{0625}', '\U{0622}', '\U{0671}', '\U{0649}', '\U{0629}', '\U{0640}'}

  /** Letters that are spelled one for the other: the alefs, yeh and alef maksura, heh and teh marbuta. */
  predicate SameLetter(c: char, d: char) {
    || c == d
    || ({c, d} <= {'\U{0627}', '\U{0623}', '\U{0625}', '\U{0622}', '\U{0671}'})
    || ({c, d} <= {'\U{064A}', '\U{0649}'})
    || ({c, d} <= {'\U{0647}', '\U{0629}'})
  }

  /** Two spellings of one text, and capitals and small letters, match alike. */
  lemma {:induction false} SpellingsMatchAlike(a: Alphabet, s: string, t: string)
    requires Sound(a) && forall c | c in REPLACED :: a.lower(c) == c
    requires |s| == |t| && forall i | 0 <= i < |s| :: SameLetter(s[i], t[i]) || a.lower(s[i]) == a.lower(t[i])
    ensures Normalize(a, s) == Normalize(a, t)
  {
    var x, y := Mapped(Fold, Mapped(a.lower, s)), Mapped(Fold, Mapped(a.lower, t));
    forall i | 0 <= i < |s| ensures x[i] == y[i] {
      assert SameLetter(s[i], t[i]) || a.lower(s[i]) == a.lower(t[i]);
    }
    assert x == y;
  }

  lemma {:induction false} WithoutTatweelInParts(x: string, y: string)
    ensures WithoutTatweel(x + y) == WithoutTatweel(x) + WithoutTatweel(y)
    decreases |x|
  {
    if x == [] {
      assert x + y == y;
    } else {
      WithoutTatweelInParts(x[1..], y);
      assert (x + y)[1..] == x[1..] + y;
    }
  }

  /** A tatweel between two letters is as if it were not there. */
  lemma {:induction false} TatweelIsNothing(a: Alphabet, x: string, y: string)
    requires a.lower(TATWEEL) == TATWEEL
    ensures Normalize(a, x + [TATWEEL] + y) == Normalize(a, x + y)
  {
    var fx, fy := Mapped(Fold, Mapped(a.lower, x)), Mapped(Fold, Mapped(a.lower, y));
    assert Mapped(Fold, Mapped(a.lower, x + [TATWEEL] + y)) == fx + ([TATWEEL] + fy);
    assert Mapped(Fold, Mapped(a.lower, x + y)) == fx + fy;
    WithoutTatweelInParts(fx, [TATWEEL] + fy);
    WithoutTatweelInParts(fx, fy);
    assert WithoutTatweel([TATWEEL] + fy) == WithoutTatweel(fy) by {
      assert ([TATWEEL] + fy)[1..] == fy && [] + WithoutTatweel(fy) == WithoutTatweel(fy);
    }
    assert Cleaned(a, x + [TATWEEL] + y) == Cleaned(a, x + y);
  }

  /** Normalising keeps the tokens, so a normalised text may be normalised again. */
  lemma {:induction false} NormalizeKeepsTokens(a: Alphabet, s: string)
    requires Sound(a)
    ensures Tokens(a, Normalize(a, s)) == Tokens(a, s)
    ensures Normalize(a, Normalize(a, s)) == Normalize(a, s)
  {
    var ts := Tokens(a, s);
    NormalizeJoinsTokens(a, s);
    TokensAreClean(a, s);
    JoinSettles(a, ts);
    CleanedKeepsSettled(a, Join(ts));
    RunsOfJoin(a, ts);
    NormalizeJoinsTokens(a, Join(ts));
  }

  // ---- Whole phrases ----

  predicate ContainsTerm(a: Alphabet, query: string, term: string) {
    var normalizedQuery := Normalize(a, query);
    var normalizedTerm := Normalize(a, term);
    |normalizedTerm| > 0 && Includes([' '] + normalizedQuery + [' '], [' '] + normalizedTerm + [' '])
  }

  /** The tokens stand one after the other somewhere among the others. */
  predicate Occurs(ts: seq<string>, qs: seq<string>) {
    exists i | 0 <= i <= |qs| - |ts| :: ts <= qs[i..]
  }

  function Padded(ts: seq<string>): string {
    [' '] + Trailed(ts)
  }

  lemma {:induction false} PaddedIsJoin(ts: seq<string>)
    requires ts != []
    ensures [' '] + Join(ts) + [' '] == Padded(ts)
  {
    TrailedJoin(ts);
    assert [' '] + Join(ts) + [' '] == [' '] + (Join(ts) + [' ']);
  }

  lemma {:induction false} PaddedHead(ts: seq<string>)
    requires ts != []
    ensures Padded(ts) == [' '] + ts[0] + Padded(ts[1..])
  {
  }

  /** A space in the padded text is where the padded text of some last tokens begins. */
  lemma {:induction false} SpaceIsBoundary(qs: seq<string>, p: nat) returns (i: nat)
    requires AreTokens(qs) && p < |Padded(qs)| && Padded(qs)[p] == ' '
    ensures i <= |qs| && Padded(qs)[p..] == Padded(qs[i..])
    decreases |qs|
  {
    if p == 0 {
      i := 0;
      assert qs[0..] == qs;
    } else {
      var q := qs[0];
      PaddedHead(qs);
      assert IsToken(q) && IsSpace(' ');
      assert forall k | 0 < k <= |q| :: Padded(qs)[k] == q[k - 1] && !IsSpace(q[k - 1]);
      assert p > |q|;
      var j := SpaceIsBoundary(qs[1..], p - 1 - |q|);
      i := j + 1;
      assert Padded(qs)[p..] == Padded(qs[1..])[p - 1 - |q|..];
      assert qs[1..][j..] == qs[i..];
    }
  }

  lemma {:induction false} BoundaryHasPlace(qs: seq<string>, i: nat) returns (p: nat)
    requires i <= |qs|
    ensures p <= |Padded(qs)| && Padded(qs)[p..] == Padded(qs[i..])
    decreases i
  {
    if i == 0 {
      p := 0;
      assert qs[0..] == qs;
    } else {
      var r := BoundaryHasPlace(qs[1..], i - 1);
      PaddedHead(qs);
      p := r + 1 + |qs[0]|;
      assert Padded(qs)[p..] == Padded(qs[1..])[r..];
      assert qs[1..][i - 1..] == qs[i..];
    }
  }

  lemma {:induction false} SameFirstToken(t: string, q: string, r: string, s: string)
    requires IsToken(t) && IsToken(q) && r != [] && s != [] && IsSpace(r[0]) && IsSpace(s[0])
    ensures t + r <= q + s <==> t == q && r <= s
  {
    var u, v := t + r, q + s;
    assert u[|t|] == r[0] && v[|q|] == s[0];
    assert (forall k | 0 <= k < |t| :: u[k] == t[k]) && (forall k | 0 <= k < |q| :: v[k] == q[k]);
    if u <= v {
      assert forall k | 0 <= k < |u| :: u[k] == v[k];
      if |t| < |q| {
        assert false;
      } else if |t| > |q| {
        assert false;
      }
      assert t == u[..|t|] == v[..|t|] == q;
      assert u[|t|..] == r && v[|t|..] == s;
    }
  }

  lemma {:induction false} PaddedPrefix(ts: seq<string>, qs: seq<string>)
    requires AreTokens(ts) && AreTokens(qs)
    ensures Padded(ts) <= Padded(qs) <==> ts <= qs
    decreases |ts|
  {
    if ts != [] {
      assert IsToken(ts[0]);
      PaddedHead(ts);
      if qs != [] {
        assert IsToken(qs[0]);
        PaddedPrefix(ts[1..], qs[1..]);
        PaddedStep(ts, qs);
        HeadAndRest(ts, qs);
      }
    }
  }

  lemma {:induction false} PaddedStep(ts: seq<string>, qs: seq<string>)
    requires ts != [] && qs != [] && IsToken(ts[0]) && IsToken(qs[0])
    ensures Padded(ts) <= Padded(qs) <==> ts[0] == qs[0] && Padded(ts[1..]) <= Padded(qs[1..])
  {
    PaddedHead(ts);
    PaddedHead(qs);
    SpacedTokens(ts[0], qs[0], Padded(ts[1..]), Padded(qs[1..]));
  }

  lemma {:induction false} SpacedTokens(t: string, q: string, r: string, s: string)
    requires IsToken(t) && IsToken(q) && r != [] && s != [] && r[0] == s[0] == ' '
    ensures [' '] + t + r <= [' '] + q + s <==> t == q && r <= s
  {
    assert IsSpace(' ');
    SameFirstToken(t, q, r, s);
    PrefixAfterSpace(t + r, q + s);
    assert [' '] + t + r == [' '] + (t + r) && [' '] + q + s == [' '] + (q + s);
  }

  lemma {:induction false} PrefixAfterSpace(x: string, y: string)
    ensures [' '] + x <= [' '] + y <==> x <= y
  {
    assert ([' '] + x)[1..] == x && ([' '] + y)[1..] == y;
    if [' '] + x <= [' '] + y {
      assert [' '] + x == ([' '] + y)[..1 + |x|];
      assert x == ([' '] + x)[1..] == y[..|x|];
    }
  }

  lemma {:induction false} HeadAndRest(ts: seq<string>, qs: seq<string>)
    requires ts != [] && qs != []
    ensures ts <= qs <==> ts[0] == qs[0] && ts[1..] <= qs[1..]
  {
    if ts[0] == qs[0] && ts[1..] <= qs[1..] {
      assert ts == [ts[0]] + ts[1..] && qs == [qs[0]] + qs[1..];
    }
  }

  lemma {:induction false} PaddedOccurs(ts: seq<string>, qs: seq<string>)
    requires AreTokens(ts) && AreTokens(qs)
    ensures Includes(Padded(qs), Padded(ts)) <==> Occurs(ts, qs)
  {
    if Includes(Padded(qs), Padded(ts)) {
      var p :| 0 <= p <= |Padded(qs)| - |Padded(ts)| && Padded(ts) <= Padded(qs)[p..];
      assert Padded(qs)[p] == Padded(qs)[p..][0] == Padded(ts)[0] == ' ';
      var i := SpaceIsBoundary(qs, p);
      PaddedPrefix(ts, qs[i..]);
      assert ts <= qs[i..];
    }
    if Occurs(ts, qs) {
      var i :| 0 <= i <= |qs| - |ts| && ts <= qs[i..];
      var p := BoundaryHasPlace(qs, i);
      PaddedPrefix(ts, qs[i..]);
      assert Padded(ts) <= Padded(qs)[p..];
    }
  }

  lemma {:induction false} NothingInBlank(ts: seq<string>)
    requires AreTokens(ts) && ts != []
    ensures !Includes([' ', ' '], Padded(ts))
  {
    assert IsToken(ts[0]);
    PaddedHead(ts);
  }

  lemma {:induction false} PaddedJoinOccurs(ts: seq<string>, qs: seq<string>)
    requires AreTokens(ts) && AreTokens(qs) && ts != []
    ensures Includes([' '] + Join(qs) + [' '], [' '] + Join(ts) + [' ']) <==> Occurs(ts, qs)
  {
    PaddedIsJoin(ts);
    if qs == [] {
      NothingInBlank(ts);
      assert [' '] + Join(qs) + [' '] == [' ', ' '];
    } else {
      PaddedIsJoin(qs);
      PaddedOccurs(ts, qs);
    }
  }

  /** Searching the padded text is matching whole tokens: the term has some, and they occur in a row in the query. */
  lemma {:induction false} ContainsTermMatchesTokens(a: Alphabet, query: string, term: string)
    requires Sound(a)
    ensures ContainsTerm(a, query, term) <==> Tokens(a, term) != [] && Occurs(Tokens(a, term), Tokens(a, query))
  {
    NormalizeJoinsTokens(a, query);
    NormalizeJoinsTokens(a, term);
    RunsAreTokens(a, Cleaned(a, query));
    RunsAreTokens(a, Cleaned(a, term));
    JoinIsTight(Tokens(a, term));
    if Tokens(a, term) != [] {
      PaddedJoinOccurs(Tokens(a, term), Tokens(a, query));
    }
  }

  /** A query normalised beforehand, or a term, gives the same answers. */
  lemma {:induction false} NormalizedTextsMatchAlike(a: Alphabet, query: string, term: string)
    requires Sound(a)
    ensures ContainsTerm(a, Normalize(a, query), term) == ContainsTerm(a, query, term)
    ensures ContainsTerm(a, query, Normalize(a, term)) == ContainsTerm(a, query, term)
  {
    NormalizeKeepsTokens(a, query);
    NormalizeKeepsTokens(a, term);
  }

  lemma {:induction false} OccursIn(ts: seq<string>, mid: seq<string>, out: seq<string>)
    requires Occurs(ts, mid) && Occurs(mid, out)
    ensures Occurs(ts, out)
  {
    var i :| 0 <= i <= |mid| - |ts| && ts <= mid[i..];
    var j :| 0 <= j <= |out| - |mid| && mid <= out[j..];
    assert mid == out[j..j + |mid|];
    assert ts == mid[i..][..|ts|] == out[j + i..][..|ts|];
  }

  /** A term found in one text is found in every text whose tokens contain that text's in a row. */
  lemma {:induction false} TermsAreInherited(a: Alphabet, term: string, inner: string, outer: string)
    requires Sound(a) && ContainsTerm(a, inner, term) && Occurs(Tokens(a, inner), Tokens(a, outer))
    ensures ContainsTerm(a, outer, term)
  {
    ContainsTermMatchesTokens(a, inner, term);
    ContainsTermMatchesTokens(a, outer, term);
    OccursIn(Tokens(a, term), Tokens(a, inner), Tokens(a, outer));
  }
}
