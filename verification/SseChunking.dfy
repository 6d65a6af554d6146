/**
 Exactly when the cuts of a stream leave no trace in the pieces that the read loop splits off, blank
 ones included: when the text has no CR CR LF. Every round normalises what it holds once more, so the
 measure is the number of carriage returns that are left.
 */
module SseChunking {
  import opened JsText
  import opened SseStream

  /** The pieces split off so far, and what is still held. */
  function PiecesFed(chunks: seq<string>): (seq<string>, string) {
    if chunks == [] then ([], "")
    else
      var (done, buffer) := PiecesFed(Init(chunks));
      var pieces := Split(Normalised(buffer + Last(chunks)));
      (done + Init(pieces), Last(pieces))
  }

  function PiecesOfChunks(chunks: seq<string>): seq<string> {
    PiecesFed(chunks).0 + [PiecesFed(chunks).1]
  }

  /** The loop writes of these pieces those that are not blank. */
  lemma {:induction false} FramesAreNonBlankPieces(chunks: seq<string>)
    ensures Fed(chunks) == (NonBlank(PiecesFed(chunks).0), PiecesFed(chunks).1)
    decreases |chunks|
  {
    if chunks != [] {
      FramesAreNonBlankPieces(Init(chunks));
      var (done, buffer) := PiecesFed(Init(chunks));
      NonBlankInParts(done, Init(Split(Normalised(buffer + Last(chunks)))));
    }
  }

  lemma {:induction false} PiecesMatchText(chunks: seq<string>)
    requires NoCrCrLf(Concat(chunks))
    ensures PiecesFed(chunks) == (Init(Split(Normalised(Concat(chunks)))), Last(Split(Normalised(Concat(chunks)))))
    decreases |chunks|
  {
    if chunks != [] {
      var t, c := Concat(Init(chunks)), Last(chunks);
      assert NoCrCrLf(t) by {
        forall i | 0 <= i < |t| - 2 ensures !(t[i] == '\r' && t[i + 1] == '\r' && t[i + 2] == '\n') {
          assert (t + c)[i] == t[i] && (t + c)[i + 1] == t[i + 1] && (t + c)[i + 2] == t[i + 2];
        }
      }
      PiecesMatchText(Init(chunks));
      SplitNextChunk(t, c);
      InitOfSum(Init(Split(Normalised(t))), Split(Normalised(Last(Split(Normalised(t))) + c)));
    }
  }

  // ---- Carriage returns ----

  function Crs(s: string): nat {
    if s == [] then 0 else (if s[0] == '\r' then 1 else 0) + Crs(s[1..])
  }

  function CrsIn(pieces: seq<string>): nat {
    if pieces == [] then 0 else Crs(pieces[0]) + CrsIn(pieces[1..])
  }

  /** How many a round of normalising takes away. */
  function CrLfs(s: string): nat
    decreases |s|
  {
    if |s| < 2 then 0
    else if s[0] == '\r' && s[1] == '\n' then 1 + CrLfs(s[2..])
    else CrLfs(s[1..])
  }

  lemma {:induction false} CrsOfCons(c: char, t: string)
    ensures Crs([c] + t) == (if c == '\r' then 1 else 0) + Crs(t)
  {
    assert ([c] + t)[1..] == t;
  }

  lemma {:induction false} CrsOfSum(a: string, b: string)
    ensures Crs(a + b) == Crs(a) + Crs(b)
    decreases |a|
  {
    if a == [] {
      assert a + b == b;
    } else {
      CrsOfSum(a[1..], b);
      CrsOfCons(a[0], a[1..] + b);
      assert a + b == [a[0]] + (a[1..] + b);
    }
  }

  lemma {:induction false} CrsOfNormalised(s: string)
    ensures Crs(Normalised(s)) + CrLfs(s) == Crs(s)
    decreases |s|
  {
    if |s| >= 2 && s[0] == '\r' && s[1] == '\n' {
      CrsOfNormalised(s[2..]);
      CrsOfCons('\n', Normalised(s[2..]));
      CrsOfCons('\r', s[1..]);
      CrsOfCons('\n', s[2..]);
      assert s == ['\r'] + s[1..] && s[1..] == ['\n'] + s[2..];
      assert s == ['\r', '\n'] + s[2..];
      NormalisedCrLf(s[2..]);
    } else if s != [] {
      CrsOfNormalised(s[1..]);
      CrsOfCons(s[0], Normalised(s[1..]));
      assert s == [s[0]] + s[1..];
      NormalisedCons(s[0], s[1..]);
    }
  }

  lemma {:induction false} CrLfsOfSum(a: string, b: string)
    requires a == [] || Last(a) != '\r'
    ensures CrLfs(a + b) == CrLfs(a) + CrLfs(b)
    decreases |a|
  {
    if a == [] {
      assert a + b == b;
    } else if |a| >= 2 && a[0] == '\r' && a[1] == '\n' {
      CrLfsOfSum(a[2..], b);
      assert (a + b)[2..] == a[2..] + b;
    } else {
      CrLfsOfSum(a[1..], b);
      assert (a + b)[1..] == a[1..] + b;
    }
  }

  lemma {:induction false} CrsInSum(a: seq<string>, b: seq<string>)
    ensures CrsIn(a + b) == CrsIn(a) + CrsIn(b)
    decreases |a|
  {
    if a == [] {
      assert a + b == b;
    } else {
      CrsInSum(a[1..], b);
      assert (a + b)[1..] == a[1..] + b;
    }
  }

  /** Splitting loses no carriage return. */
  lemma {:induction false} CrsOfSplit(s: string)
    ensures CrsIn(Split(s)) == Crs(s)
    decreases |s|
  {
    if s == [] {
      assert Split(s) == [""];
    } else if StartsPair(s) {
      CrsOfSplit(s[2..]);
      SplitPair(s[2..]);
      assert s == ['\n', '\n'] + s[2..];
      CrsOfSum(['\n', '\n'], s[2..]);
      assert Crs(['\n', '\n']) == 0 by { assert ['\n', '\n'][1..] == ['\n']; }
      CrsInSum([""], Split(s[2..]));
      assert CrsIn([""]) == 0;
    } else {
      var pieces := Split(s[1..]);
      CrsOfSplit(s[1..]);
      CrsOfCons(s[0], pieces[0]);
      CrsOfCons(s[0], s[1..]);
      assert s == [s[0]] + s[1..];
      assert ([[s[0]] + pieces[0]] + pieces[1..])[1..] == pieces[1..];
    }
  }

  predicate EndsInCrLf(s: string) {
    |s| >= 2 && s[|s| - 2] == '\r' && s[|s| - 1] == '\n'
  }

  lemma {:induction false} EndCounts(s: string)
    requires EndsInCrLf(s)
    ensures CrLfs(s) >= 1
    decreases |s|
  {
    if !(s[0] == '\r' && s[1] == '\n') {
      EndCounts(s[1..]);
    }
  }

  /** The held piece keeps the end of the text. */
  lemma {:induction false} LastPieceEnds(s: string)
    requires EndsInCrLf(s)
    ensures EndsInCrLf(Last(Split(s)))
    decreases |s|
  {
    if StartsPair(s) {
      LastPieceEnds(s[2..]);
    } else if |s| == 2 {
      assert Split(s[1..]) == [s[1..]] by { OnePiece(s[1..]); }
    } else {
      LastPieceEnds(s[1..]);
      var pieces := Split(s[1..]);
      var longer := [[s[0]] + pieces[0]] + pieces[1..];
      assert Split(s) == longer;
      if |pieces| == 1 {
        assert Last(longer) == [s[0]] + Last(pieces);
      } else {
        assert Last(longer) == Last(pieces);
      }
    }
  }

  lemma {:induction false} MoreEnds(x: string, s: string)
    requires EndsInCrLf(s)
    ensures EndsInCrLf(x + s)
  {
  }

  lemma {:induction false} CrCrLfAlone()
    ensures Normalised(['\r', '\r', '\n']) == ['\r', '\n']
  {
    assert Normalised([]) == [];
    NormalisedCrLf([]);
    assert ['\r', '\n'] + [] == ['\r', '\n'] && ['\n'] + [] == ['\n'];
    NormalisedCons('\r', ['\r', '\n']);
    assert ['\r'] + ['\r', '\n'] == ['\r', '\r', '\n'];
  }

  lemma {:induction false} NormalisedKeepsCr(s: string)
    ensures EndsInCrLf(Normalised(s + ['\r', '\r', '\n']))
    decreases |s|
  {
    var tail := ['\r', '\r', '\n'];
    if s == [] {
      CrCrLfAlone();
      assert s + tail == tail;
    } else if |s| >= 2 && s[0] == '\r' && s[1] == '\n' {
      NormalisedKeepsCr(s[2..]);
      NormalisedCrLf(s[2..] + tail);
      assert s + tail == ['\r', '\n'] + (s[2..] + tail);
      MoreEnds(['\n'], Normalised(s[2..] + tail));
    } else {
      NormalisedKeepsCr(s[1..]);
      NormalisedCons(s[0], s[1..] + tail);
      assert s + tail == [s[0]] + (s[1..] + tail);
      MoreEnds([s[0]], Normalised(s[1..] + tail));
    }
  }

  /** A cut behind a CR CR LF costs a carriage return that the whole text keeps. */
  lemma {:induction false} CutCostsCr(p: string, q: string)
    requires EndsInCrLf(Normalised(p)) && p != [] && Last(p) == '\n'
    ensures CrsIn(PiecesOfChunks([p, q])) < CrsIn(Split(Normalised(p + q)))
  {
    var first := Split(Normalised(p));
    var held := Last(first);
    LastPieceEnds(Normalised(p));
    EndCounts(held);
    TwoChunks(p, q);
    CrsInSum(Init(first), Split(Normalised(held + q)));
    CrsInSum(Init(first), [held]);
    assert first == Init(first) + [held];
    assert CrsIn([held]) == Crs(held) by { assert [held][1..] == []; }
    CrsOfSplit(Normalised(p));
    CrsOfSplit(Normalised(held + q));
    CrsOfSplit(Normalised(p + q));
    CrsOfNormalised(p);
    CrsOfNormalised(held + q);
    CrsOfNormalised(p + q);
    CrsOfSum(p, q);
    CrsOfSum(held, q);
    CrLfsOfSum(p, q);
    CrLfsOfSum(held, q);
  }

  lemma {:induction false} OneChunk(p: string)
    ensures PiecesFed([p]) == (Init(Split(Normalised(p))), Last(Split(Normalised(p))))
  {
    assert Init([p]) == [] && PiecesFed([]) == ([], "");
    assert "" + p == p && [] + Init(Split(Normalised(p))) == Init(Split(Normalised(p)));
  }

  lemma {:induction false} TwoChunks(p: string, q: string)
    ensures var first := Split(Normalised(p));
            PiecesOfChunks([p, q]) == Init(first) + Split(Normalised(Last(first) + q))
  {
    assert Init([p, q]) == [p];
    OneChunk(p);
    var second := Split(Normalised(Last(Split(Normalised(p))) + q));
    assert second == Init(second) + [Last(second)];
  }

  lemma {:induction false} ConcatTwo(p: string, q: string)
    ensures Concat([p, q]) == p + q
  {
    assert Init([p, q]) == [p] && Init([p]) == [];
    assert Concat([p]) == "" + p;
  }

  /** The pieces are those of the whole text whichever way it is cut. */
  ghost predicate CutsAreInvisible(t: string) {
    forall chunks: seq<string> | Concat(chunks) == t :: PiecesOfChunks(chunks) == Split(Normalised(t))
  }

  lemma {:induction false} InvisibleWithoutCrCrLf(t: string)
    requires NoCrCrLf(t)
    ensures CutsAreInvisible(t)
  {
    forall chunks: seq<string> | Concat(chunks) == t ensures PiecesOfChunks(chunks) == Split(Normalised(t)) {
      PiecesMatchText(chunks);
    }
  }

  lemma {:induction false} VisibleAfterCrCrLf(t: string, i: nat)
    requires i + 2 < |t| && t[i] == '\r' && t[i + 1] == '\r' && t[i + 2] == '\n'
    ensures !CutsAreInvisible(t)
  {
    var p, q := t[..i + 3], t[i + 3..];
    assert p == t[..i] + ['\r', '\r', '\n'];
    assert t == p + q;
    NormalisedKeepsCr(t[..i]);
    CutCostsCr(p, q);
    ConcatTwo(p, q);
  }

  /** The exact condition, on the text as it comes in. */
  lemma {:induction false} CutsAreInvisibleExactly(t: string)
    ensures CutsAreInvisible(t) <==> NoCrCrLf(t)
  {
    if NoCrCrLf(t) {
      InvisibleWithoutCrCrLf(t);
    } else {
      var i :| 0 <= i < |t| - 2 && t[i] == '\r' && t[i + 1] == '\r' && t[i + 2] == '\n';
      VisibleAfterCrCrLf(t, i);
    }
  }

  // ---- The frames that are written ----

  /** The carriage returns in what the loop writes of these pieces. */
  function WrittenCrs(pieces: seq<string>): nat {
    CrsIn(NonBlank(pieces))
  }

  lemma {:induction false} WrittenCrsInParts(a: seq<string>, b: seq<string>)
    ensures WrittenCrs(a + b) == WrittenCrs(a) + WrittenCrs(b)
  {
    NonBlankInParts(a, b);
    CrsInSum(NonBlank(a), NonBlank(b));
  }

  lemma {:induction false} WrittenCrsOfOne(f: string)
    ensures WrittenCrs([f]) == if Blank(f) then 0 else Crs(f)
  {
    NonBlankSnoc([], f);
    assert [] + [f] == [f];
    assert NonBlank([f]) == if Blank(f) then [] else [f];
    assert CrsIn([f]) == Crs(f) + CrsIn([]) by { assert [f][1..] == []; }
  }

  lemma {:induction false} WrittenAtMostAll(pieces: seq<string>)
    ensures WrittenCrs(pieces) <= CrsIn(pieces)
    decreases |pieces|
  {
    if pieces != [] {
      assert pieces == [pieces[0]] + pieces[1..];
      WrittenCrsInParts([pieces[0]], pieces[1..]);
      WrittenCrsOfOne(pieces[0]);
      WrittenAtMostAll(pieces[1..]);
    }
  }

  /** What is held grows into the first piece of what follows, unless their line feeds make a pair. */
  lemma {:induction false} SplitBehindPiece(l: string, c: string)
    requires NoPair(l) && (l == [] || c == [] || Last(l) != '\n' || c[0] != '\n')
    ensures Split(l + c) == [l + Split(c)[0]] + Split(c)[1..]
    decreases |l|
  {
    var r := Split(c);
    if l == [] {
      assert l + c == c && l + r[0] == r[0];
    } else {
      assert NoPair(l[1..]) by {
        forall i | 0 <= i < |l[1..]| - 1 ensures !(l[1..][i] == '\n' && l[1..][i + 1] == '\n') {
          assert !(l[i + 1] == '\n' && l[i + 2] == '\n');
        }
      }
      SplitBehindPiece(l[1..], c);
      assert |l| > 1 ==> !(l[0] == '\n' && l[1] == '\n');
      assert l + c == [l[0]] + (l[1..] + c);
      SplitCons(l[0], l[1..] + c);
      assert [l[0]] + (l[1..] + r[0]) == l + r[0];
    }
  }

  /** One line feed more at the front moves the pairs, but no carriage return. */
  lemma {:induction false} LineFeedInFront(z: string)
    ensures WrittenCrs(Split(['\n'] + z)) == WrittenCrs(Split(z))
    decreases |z|
  {
    if z != [] && z[0] == '\n' {
      var y := z[1..];
      assert z == ['\n'] + y && ['\n'] + z == ['\n', '\n'] + y;
      SplitPair(y);
      WrittenCrsInParts([""], Split(y));
      WrittenCrsOfOne("");
      LineFeedInFront(y);
    } else {
      var r := Split(z);
      SplitCons('\n', z);
      assert r == [r[0]] + r[1..];
      WrittenCrsInParts([r[0]], r[1..]);
      WrittenCrsInParts([['\n'] + r[0]], r[1..]);
      FirstPieceGrows(r[0]);
    }
  }

  lemma {:induction false} FirstPieceGrows(f: string)
    ensures WrittenCrs([['\n'] + f]) == WrittenCrs([f])
  {
    WrittenCrsOfOne(f);
    WrittenCrsOfOne(['\n'] + f);
    CrsOfCons('\n', f);
    assert Blank(['\n'] + f) <==> Blank(f) by {
      assert IsSpace('\n') && (['\n'] + f)[1..] == f;
      assert forall i | 0 <= i < |f| :: (['\n'] + f)[i + 1] == f[i];
    }
  }

  /** A pair cuts off what stands before it, up to a line feed. */
  lemma {:induction false} PairCuts(l: string, z: string)
    requires NoPair(l)
    ensures WrittenCrs(Split(l + ['\n', '\n'] + z)) <= Crs(l) + WrittenCrs(Split(z))
  {
    if l != [] && Last(l) == '\n' {
      var k := Init(l);
      assert l == k + ['\n'];
      assert NoPair(k) && (k == [] || Last(k) != '\n') by {
        assert forall i | 0 <= i < |l| - 1 :: !(l[i] == '\n' && l[i + 1] == '\n');
      }
      assert l + ['\n', '\n'] + z == k + (['\n', '\n'] + (['\n'] + z));
      PairCutsHere(k, ['\n'] + z);
      LineFeedInFront(z);
      CrsOfSum(k, ['\n']);
    } else {
      assert l + ['\n', '\n'] + z == l + (['\n', '\n'] + z);
      PairCutsHere(l, z);
    }
  }

  lemma {:induction false} PairCutsHere(l: string, z: string)
    requires NoPair(l) && (l == [] || Last(l) != '\n')
    ensures Split(l + (['\n', '\n'] + z)) == [l] + Split(z)
    ensures WrittenCrs(Split(l + (['\n', '\n'] + z))) <= Crs(l) + WrittenCrs(Split(z))
  {
    SplitBehindPiece(l, ['\n', '\n'] + z);
    SplitPair(z);
    assert l + "" == l && ([""] + Split(z))[1..] == Split(z);
    WrittenCrsInParts([l], Split(z));
    WrittenCrsOfOne(l);
  }

  lemma {:induction false} Associated(x: string, y: string, z: string)
    ensures (x + y) + z == x + (y + z)
  {
  }

  lemma {:induction false} BehindCrLf(t: string, b: string)
    requires Normalised(t + b) == Normalised(t) + Normalised(b)
    ensures Normalised((['\r', '\n'] + t) + b) == Normalised(['\r', '\n'] + t) + Normalised(b)
  {
    NormalisedCrLf(t);
    NormalisedCrLf(t + b);
    Associated(['\r', '\n'], t, b);
    Associated(['\n'], Normalised(t), Normalised(b));
  }

  lemma {:induction false} BehindChar(c: char, t: string, b: string)
    requires Normalised(t + b) == Normalised(t) + Normalised(b)
    requires c != '\r' || (t != [] && t[0] != '\n')
    ensures Normalised(([c] + t) + b) == Normalised([c] + t) + Normalised(b)
  {
    NormalisedCons(c, t);
    NormalisedCons(c, t + b);
    Associated([c], t, b);
    Associated([c], Normalised(t), Normalised(b));
  }

  lemma {:induction false} NormalisedBehindLf(a: string, b: string)
    requires a == [] || Last(a) != '\r'
    ensures Normalised(a + b) == Normalised(a) + Normalised(b)
    decreases |a|
  {
    if a == [] {
      assert a + b == b;
    } else if |a| >= 2 && a[0] == '\r' && a[1] == '\n' {
      NormalisedBehindLf(a[2..], b);
      BehindCrLf(a[2..], b);
      assert a == ['\r', '\n'] + a[2..];
    } else {
      NormalisedBehindLf(a[1..], b);
      BehindChar(a[0], a[1..], b);
      assert a == [a[0]] + a[1..];
    }
  }

  /** The first piece is not blank: read at once, it keeps a carriage return that the second round takes. */
  lemma {:induction false} HeldLosesCr(held: string, y: string)
    requires EndsInCrLf(held) && NoPair(held) && !Blank(Split(held + y)[0])
    ensures WrittenCrs(Split(Normalised(held) + y)) < WrittenCrs(Split(held + y))
  {
    if y != [] && y[0] == '\n' {
      PairBehindHeld(held, y);
    } else {
      NoPairBehindHeld(held, y);
    }
  }

  lemma {:induction false} PairBehindHeld(held: string, y: string)
    requires EndsInCrLf(held) && NoPair(held) && !Blank(Split(held + y)[0])
    requires y != [] && y[0] == '\n'
    ensures WrittenCrs(Split(Normalised(held) + y)) < WrittenCrs(Split(held + y))
  {
    var h, piece, z := held[..|held| - 2], Init(held), y[1..];
    assert held == h + ['\r', '\n'] && piece == h + ['\r'];
    assert held + y == piece + (['\n', '\n'] + z);
    assert NoPair(piece) by {
      assert forall i | 0 <= i < |held| - 1 :: !(held[i] == '\n' && held[i + 1] == '\n');
    }
    PairCutsHere(piece, z);
    WrittenCrsInParts([piece], Split(z));
    WrittenCrsOfOne(piece);
    CrsOfSum(h, ['\r']);
    assert Crs(['\r']) == 1 by { assert ['\r'][1..] == []; }
    NormalisedEndsHere(h);
    CrsOfNormalised(h);
    assert Normalised(held) + y == Normalised(h) + ['\n', '\n'] + z;
    PairsCut(Normalised(h), z);
  }

  lemma {:induction false} NormalisedEndsHere(h: string)
    ensures Normalised(h + ['\r', '\n']) == Normalised(h) + ['\n']
    decreases |h|
  {
    var tail := ['\r', '\n'];
    if h == [] {
      assert h + tail == tail + [];
      NormalisedCrLf([]);
    } else if |h| >= 2 && h[0] == '\r' && h[1] == '\n' {
      NormalisedEndsHere(h[2..]);
      assert (h + tail)[2..] == h[2..] + tail;
    } else {
      NormalisedEndsHere(h[1..]);
      assert (h + tail)[1..] == h[1..] + tail;
    }
  }

  lemma {:induction false} PairsCut(a: string, z: string)
    ensures WrittenCrs(Split(a + ['\n', '\n'] + z)) <= Crs(a) + WrittenCrs(Split(z))
  {
    var pieces := Split(a);
    var l := Last(pieces);
    assert a + ['\n', '\n'] + z == a + (['\n', '\n'] + z) && l + ['\n', '\n'] + z == l + (['\n', '\n'] + z);
    SplitInParts(a, ['\n', '\n'] + z);
    LastPieceIsWhole(a);
    PairCuts(l, z);
    WrittenCrsInParts(Init(pieces), Split(l + (['\n', '\n'] + z)));
    WrittenAtMostAll(Init(pieces));
    AllButLast(a);
  }

  lemma {:induction false} AllButLast(a: string)
    ensures CrsIn(Init(Split(a))) + Crs(Last(Split(a))) == Crs(a)
  {
    var pieces := Split(a);
    CrsOfSplit(a);
    CrsInSum(Init(pieces), [Last(pieces)]);
    assert pieces == Init(pieces) + [Last(pieces)];
    assert CrsIn([Last(pieces)]) == Crs(Last(pieces)) by { assert [Last(pieces)][1..] == []; }
  }

  lemma {:induction false} NoPairBehindHeld(held: string, y: string)
    requires EndsInCrLf(held) && NoPair(held) && !Blank(Split(held + y)[0])
    requires y == [] || y[0] != '\n'
    ensures WrittenCrs(Split(Normalised(held) + y)) < WrittenCrs(Split(held + y))
  {
    var r, a := Split(y), Normalised(held);
    var pieces := Split(a);
    var l := Last(pieces);
    SplitBehindPiece(held, y);
    WrittenCrsInParts([held + r[0]], r[1..]);
    WrittenCrsOfOne(held + r[0]);
    CrsOfSum(held, r[0]);
    EndCounts(held);
    CrsOfNormalised(held);
    SplitInParts(a, y);
    LastPieceIsWhole(a);
    SplitBehindPiece(l, y);
    WrittenCrsInParts(Init(pieces), [l + r[0]] + r[1..]);
    WrittenCrsInParts([l + r[0]], r[1..]);
    WrittenCrsOfOne(l + r[0]);
    CrsOfSum(l, r[0]);
    WrittenAtMostAll(Init(pieces));
    AllButLast(a);
  }

  /** The frames of two chunks, and those of the text they make up. */
  lemma {:induction false} FramesOfTwo(p: string, q: string)
    requires p != [] && Last(p) == '\n' && EndsInCrLf(Normalised(p))
    ensures var first := Split(Normalised(p));
            && FramesOfChunks([p, q], "")
               == NonBlank(Init(first)) + NonBlank(Split(Normalised(Last(first)) + Normalised(q)))
            && FramesAtOnce(p + q) == NonBlank(Init(first)) + NonBlank(Split(Last(first) + Normalised(q)))
            && Split(Normalised(p + q)) == Init(first) + Split(Last(first) + Normalised(q))
  {
    var first := Split(Normalised(p));
    var held := Last(first);
    LastPieceEnds(Normalised(p));
    NormalisedBehindLf(p, q);
    NormalisedBehindLf(held, q);
    SplitInParts(Normalised(p), Normalised(q));
    NonBlankInParts(Init(first), Split(held + Normalised(q)));
    FramesAreNonBlankPieces([p, q]);
    TwoChunks(p, q);
    var (done, rest) := PiecesFed([p, q]);
    assert rest + "" == rest;
    NonBlankInParts(done, [rest]);
    NonBlankInParts(Init(first), Split(Normalised(held + q)));
  }

  /** Which piece of the whole text the character before a place falls into. */
  function PieceBefore(t: string, i: nat): nat
    requires i <= |t|
  {
    |Split(Normalised(t[..i]))| - 1
  }

  /** A CR CR LF in a piece that is written: the cut behind it changes what is written. */
  lemma {:induction false} FramesShowTheCut(t: string, i: nat)
    requires i + 2 < |t| && t[i] == '\r' && t[i + 1] == '\r' && t[i + 2] == '\n'
    ensures var pieces, k := Split(Normalised(t)), PieceBefore(t, i + 3);
            && k < |pieces|
            && (!Blank(pieces[k]) ==> FramesOfChunks([t[..i + 3], t[i + 3..]], "") != FramesAtOnce(t))
  {
    var p, q := t[..i + 3], t[i + 3..];
    assert p == t[..i] + ['\r', '\r', '\n'] && t == p + q;
    NormalisedKeepsCr(t[..i]);
    FramesOfTwo(p, q);
    var first := Split(Normalised(p));
    var held, y := Last(first), Normalised(q);
    var pieces, k := Split(Normalised(t)), PieceBefore(t, i + 3);
    assert pieces[k] == Split(held + y)[0];
    if !Blank(pieces[k]) {
      LastPieceEnds(Normalised(p));
      LastPieceIsWhole(Normalised(p));
      HeldLosesCr(held, y);
      CrsInSum(NonBlank(Init(first)), NonBlank(Split(Normalised(held) + y)));
      CrsInSum(NonBlank(Init(first)), NonBlank(Split(held + y)));
    }
  }
}
