/**
 The support assistant's event stream (section 9.2.5 of the WHATWG HTML Standard, with LF and CRLF line
 ends only): decoded chunks arrive cut anywhere and are re-framed at blank lines.
 */
module SseStream {
  import opened JsText

  /** `replace(/\r\n/g, '\n')`. */
  function Normalised(s: string): string {
    if s == [] then []
    else if |s| >= 2 && s[0] == '\r' && s[1] == '\n' then ['\n'] + Normalised(s[2..])
    else [s[0]] + Normalised(s[1..])
  }

  predicate StartsPair(s: string) {
    |s| >= 2 && s[0] == '\n' && s[1] == '\n'
  }

  /** `split('\n\n')`: pairs are taken from the left. */
  function Split(s: string): (r: seq<string>)
    ensures |r| >= 1
  {
    if s == [] then [""]
    else if StartsPair(s) then [""] + Split(s[2..])
    else
      var r := Split(s[1..]);
      [[s[0]] + r[0]] + r[1..]
  }

  function Init<T>(s: seq<T>): seq<T>
    requires s != []
  {
    s[..|s| - 1]
  }

  function Last<T>(s: seq<T>): T
    requires s != []
  {
    s[|s| - 1]
  }

  function NonBlank(frames: seq<string>): seq<string> {
    if frames == [] then []
    else NonBlank(Init(frames)) + if Blank(Last(frames)) then [] else [Last(frames)]
  }

  function Concat(chunks: seq<string>): string {
    if chunks == [] then [] else Concat(Init(chunks)) + Last(chunks)
  }

  /** The frames of the whole text, read at once. */
  function FramesAtOnce(text: string): seq<string> {
    NonBlank(Split(Normalised(text)))
  }

  /** What the loop has written and what it still holds after the chunks so far. */
  function Fed(chunks: seq<string>): (seq<string>, string) {
    if chunks == [] then ([], "")
    else
      var (written, buffer) := Fed(Init(chunks));
      var pieces := Split(Normalised(buffer + Last(chunks)));
      (written + NonBlank(Init(pieces)), Last(pieces))
  }

  /** All frames of a stream; `rest` is what the decoder still flushes at the end. */
  function FramesOfChunks(chunks: seq<string>, rest: string): seq<string> {
    Fed(chunks).0 + NonBlank([Fed(chunks).1 + rest])
  }

  /** The read loop. */
  method Reframe(chunks: seq<string>, rest: string) returns (written: seq<string>)
    ensures written == FramesOfChunks(chunks, rest)
  {
    var buffer := "";
    written := [];
    for i := 0 to |chunks|
      invariant (written, buffer) == Fed(chunks[..i])
    {
      assert Init(chunks[..i + 1]) == chunks[..i];
      buffer := buffer + chunks[i];
      buffer := Normalised(buffer);
      var frames := Split(buffer);
      buffer := Last(frames);
      frames := Init(frames);
      ghost var before := written;
      for j := 0 to |frames|
        invariant written == before + NonBlank(frames[..j])
      {
        assert Init(frames[..j + 1]) == frames[..j];
        if !Blank(frames[j]) {
          written := written + [frames[j]];
        }
      }
      assert frames[..|frames|] == frames;
    }
    assert chunks[..|chunks|] == chunks;
    buffer := buffer + rest;
    if !Blank(buffer) {
      written := written + [buffer];
    }
    assert NonBlank([buffer]) == if Blank(buffer) then [] else [buffer] by {
      assert Init([buffer]) == [];
    }
  }

  predicate NoCrCrLf(s: string) {
    forall i | 0 <= i < |s| - 2 :: !(s[i] == '\r' && s[i + 1] == '\r' && s[i + 2] == '\n')
  }

  predicate NoCrLf(s: string) {
    forall i | 0 <= i < |s| - 1 :: !(s[i] == '\r' && s[i + 1] == '\n')
  }

  predicate NoPair(s: string) {
    forall i | 0 <= i < |s| - 1 :: !(s[i] == '\n' && s[i + 1] == '\n')
  }

  predicate NoLineEnds(s: string) {
    forall i | 0 <= i < |s| :: s[i] != '\r' && s[i] != '\n'
  }

  // Normalising.

  lemma {:induction false} NormalisedCons(c: char, t: string)
    requires !(c == '\r' && t != [] && t[0] == '\n')
    ensures Normalised([c] + t) == [c] + Normalised(t)
  {
    assert ([c] + t)[1..] == t;
  }

  lemma {:induction false} NormalisedCrLf(t: string)
    ensures Normalised(['\r', '\n'] + t) == ['\n'] + Normalised(t)
  {
    assert (['\r', '\n'] + t)[2..] == t;
  }

  lemma {:induction false} NormalisedFirst(s: string)
    requires s != []
    ensures Normalised(s) != []
    ensures Normalised(s)[0] == '\n' <==> s[0] == '\n' || (|s| >= 2 && s[0] == '\r' && s[1] == '\n')
  {
  }

  /** A chunk boundary inside a CRLF does not matter: the held CR meets its LF in the next round. */
  lemma {:induction false} NormaliseInParts(x: string, c: string)
    requires NoCrCrLf(x + c)
    ensures Normalised(x + c) == Normalised(Normalised(x) + c)
  {
    if |x| <= 1 {
      assert Normalised(x) == x;
    } else if x[0] == '\r' && x[1] == '\n' {
      SuffixNoCrCrLf(x + c, 2);
      assert (x + c)[2..] == x[2..] + c;
      NormaliseInParts(x[2..], c);
      PartsAfterCrLf(x, c);
    } else {
      SuffixNoCrCrLf(x + c, 1);
      assert (x + c)[1..] == x[1..] + c;
      NormaliseInParts(x[1..], c);
      CrThenCrLf(x, c);
      NormalisedFirst(x[1..]);
      PartsAfterChar(x, c);
    }
  }

  lemma {:induction false} AfterCrLf(t: string, c: string)
    requires Normalised(t + c) == Normalised(Normalised(t) + c)
    ensures Normalised(['\r', '\n'] + (t + c)) == Normalised(Normalised(['\r', '\n'] + t) + c)
  {
    var n := Normalised(t);
    NormalisedCrLf(t);
    NormalisedCrLf(t + c);
    NormalisedCons('\n', n + c);
    assert ['\n'] + n + c == ['\n'] + (n + c);
  }

  lemma {:induction false} PartsAfterCrLf(x: string, c: string)
    requires |x| >= 2 && x[0] == '\r' && x[1] == '\n'
    requires Normalised(x[2..] + c) == Normalised(Normalised(x[2..]) + c)
    ensures Normalised(x + c) == Normalised(Normalised(x) + c)
  {
    var t := x[2..];
    assert x == ['\r', '\n'] + t && x + c == ['\r', '\n'] + (t + c);
    AfterCrLf(t, c);
  }

  lemma {:induction false} AfterChar(h: char, t: string, c: string)
    requires t != [] && !(h == '\r' && t[0] == '\n')
    requires Normalised(t) != [] && !(h == '\r' && Normalised(t)[0] == '\n')
    requires Normalised(t + c) == Normalised(Normalised(t) + c)
    ensures Normalised([h] + (t + c)) == Normalised(Normalised([h] + t) + c)
  {
    var n := Normalised(t);
    NormalisedCons(h, t);
    NormalisedCons(h, t + c);
    NormalisedCons(h, n + c);
    assert [h] + n + c == [h] + (n + c);
  }

  lemma {:induction false} PartsAfterChar(x: string, c: string)
    requires |x| >= 2 && !(x[0] == '\r' && x[1] == '\n')
    requires Normalised(x[1..]) != [] && !(x[0] == '\r' && Normalised(x[1..])[0] == '\n')
    requires Normalised(x[1..] + c) == Normalised(Normalised(x[1..]) + c)
    ensures Normalised(x + c) == Normalised(Normalised(x) + c)
  {
    assert x == [x[0]] + x[1..] && x + c == [x[0]] + (x[1..] + c);
    AfterChar(x[0], x[1..], c);
  }

  lemma {:induction false} CrThenCrLf(x: string, c: string)
    requires NoCrCrLf(x + c)
    ensures |x| >= 3 && x[0] == '\r' && x[1] == '\r' ==> x[2] != '\n'
  {
    if |x| >= 3 {
      assert (x + c)[0] == x[0] && (x + c)[1] == x[1] && (x + c)[2] == x[2];
    }
  }

  lemma {:induction false} SuffixNoCrCrLf(s: string, k: nat)
    requires NoCrCrLf(s) && k <= |s|
    ensures NoCrCrLf(s[k..])
  {
    forall i | 0 <= i < |s[k..]| - 2
      ensures !(s[k..][i] == '\r' && s[k..][i + 1] == '\r' && s[k..][i + 2] == '\n')
    {
      assert !(s[k + i] == '\r' && s[k + i + 1] == '\r' && s[k + i + 2] == '\n');
    }
  }

  lemma {:induction false} NormalisedIsClean(s: string)
    requires NoCrCrLf(s)
    ensures NoCrLf(Normalised(s))
  {
    if s == [] {
    } else if |s| >= 2 && s[0] == '\r' && s[1] == '\n' {
      SuffixNoCrCrLf(s, 2);
      NormalisedIsClean(s[2..]);
    } else {
      SuffixNoCrCrLf(s, 1);
      NormalisedIsClean(s[1..]);
      if |s| >= 2 {
        NormalisedFirst(s[1..]);
        if s[0] == '\r' && |s| >= 3 {
          assert !(s[0] == '\r' && s[1] == '\r' && s[2] == '\n');
        }
      }
    }
  }

  lemma {:induction false} SuffixNoCrLf(s: string, k: nat)
    requires NoCrLf(s) && k <= |s|
    ensures NoCrLf(s[k..]) && NoCrLf(s[..k])
  {
    var t, u := s[k..], s[..k];
    forall i | 0 <= i < |t| - 1
      ensures !(t[i] == '\r' && t[i + 1] == '\n')
    {
      assert !(s[k + i] == '\r' && s[k + i + 1] == '\n');
    }
    forall i | 0 <= i < |u| - 1
      ensures !(u[i] == '\r' && u[i + 1] == '\n')
    {
      assert !(s[i] == '\r' && s[i + 1] == '\n');
    }
  }

  lemma {:induction false} CharStays(h: char, t: string, y: string)
    requires Normalised(t + y) == t + Normalised(y) && !(h == '\r' && t + y != [] && (t + y)[0] == '\n')
    ensures Normalised([h] + t + y) == [h] + t + Normalised(y)
  {
    NormalisedCons(h, t + y);
    assert [h] + t + y == [h] + (t + y);
    assert [h] + t + Normalised(y) == [h] + (t + Normalised(y));
  }

  lemma {:induction false} CleanPrefixStays(p: string, y: string)
    requires NoCrLf(p) && (p == [] || y == [] || Last(p) != '\r' || y[0] != '\n')
    ensures Normalised(p + y) == p + Normalised(y)
  {
    if p == [] {
      assert p + y == y;
    } else {
      var h, t := p[0], p[1..];
      assert p == [h] + t;
      SuffixNoCrLf(p, 1);
      if t != [] {
        assert !(p[0] == '\r' && p[1] == '\n');
      }
      CleanPrefixStays(t, y);
      CharStays(h, t, y);
    }
  }

  // Splitting.

  lemma {:induction false} SplitCons(c: char, t: string)
    requires !(c == '\n' && t != [] && t[0] == '\n')
    ensures Split([c] + t) == [[c] + Split(t)[0]] + Split(t)[1..]
  {
    assert ([c] + t)[1..] == t;
  }

  lemma {:induction false} SplitPair(t: string)
    ensures Split(['\n', '\n'] + t) == [""] + Split(t)
  {
    assert (['\n', '\n'] + t)[2..] == t;
  }

  lemma {:induction false} OnePiece(s: string)
    ensures |Split(s)| == 1 <==> NoPair(s)
    ensures |Split(s)| == 1 ==> Split(s) == [s]
  {
    if s == [] {
    } else if StartsPair(s) {
      assert !NoPair(s) by { assert s[0] == '\n' && s[1] == '\n'; }
    } else {
      var t := s[1..];
      OnePiece(t);
      assert s == [s[0]] + t;
      SplitCons(s[0], t);
      if NoPair(t) {
        forall i | 0 <= i < |s| - 1
          ensures !(s[i] == '\n' && s[i + 1] == '\n')
        {
          if i > 0 {
            assert !(t[i - 1] == '\n' && t[i] == '\n');
          }
        }
      } else {
        var i :| 0 <= i < |t| - 1 && t[i] == '\n' && t[i + 1] == '\n';
        assert s[i + 1] == '\n' && s[i + 2] == '\n';
      }
    }
  }

  /** The text before the last piece splits into the other pieces and ends in a line feed. */
  lemma {:induction false} BeforeLastPiece(s: string) returns (head: string)
    ensures s == head + Last(Split(s))
    ensures Split(head) == Init(Split(s)) + [""]
    ensures head == [] || Last(head) == '\n'
  {
    OnePiece(s);
    if |Split(s)| == 1 {
      head := [];
    } else if StartsPair(s) {
      var h := BeforeLastPiece(s[2..]);
      head := HeadAfterPair(s, h);
    } else {
      var h := BeforeLastPiece(s[1..]);
      head := HeadAfterChar(s, h);
    }
  }

  lemma {:induction false} HeadAfterPair(s: string, h: string) returns (head: string)
    requires StartsPair(s)
    requires s[2..] == h + Last(Split(s[2..])) && Split(h) == Init(Split(s[2..])) + [""]
    requires h == [] || Last(h) == '\n'
    ensures s == head + Last(Split(s))
    ensures Split(head) == Init(Split(s)) + [""]
    ensures head == [] || Last(head) == '\n'
  {
    head := ['\n', '\n'] + h;
    SplitPair(h);
    var pieces := Split(s[2..]);
    assert Split(s) == [""] + pieces;
    assert Init([""] + pieces) == [""] + Init(pieces) && Last([""] + pieces) == Last(pieces);
    assert s == ['\n', '\n'] + s[2..];
  }

  lemma {:induction false} HeadAfterChar(s: string, h: string) returns (head: string)
    requires s != [] && !StartsPair(s) && |Split(s)| > 1
    requires s[1..] == h + Last(Split(s[1..])) && Split(h) == Init(Split(s[1..])) + [""]
    requires h == [] || Last(h) == '\n'
    ensures s == head + Last(Split(s))
    ensures Split(head) == Init(Split(s)) + [""]
    ensures head == [] || Last(head) == '\n'
  {
    var t := s[1..];
    assert |Split(h)| == |Split(t)| > 1;
    assert h != [] && h[0] == t[0];
    head := [s[0]] + h;
    SplitCons(s[0], h);
    AddToFirst(s[0], Split(t), [""]);
  }

  /** Putting a character before the first of several pieces leaves the last one alone. */
  lemma {:induction false} AddToFirst(c: char, pieces: seq<string>, more: seq<string>)
    requires |pieces| > 1
    ensures var longer := [[c] + pieces[0]] + pieces[1..];
            && Last(longer) == Last(pieces)
            && [[c] + (Init(pieces) + more)[0]] + (Init(pieces) + more)[1..] == Init(longer) + more
  {
  }

  lemma {:induction false} BlankFirst(pieces: seq<string>, more: seq<string>)
    requires pieces != []
    ensures Last([""] + pieces) == Last(pieces) && Init([""] + pieces) + more == [""] + (Init(pieces) + more)
  {
  }

  lemma {:induction false} PartsAfterPair(t: string, c: string)
    requires Split(t + c) == Init(Split(t)) + Split(Last(Split(t)) + c)
    ensures Split((['\n', '\n'] + t) + c) == Init(Split(['\n', '\n'] + t)) + Split(Last(Split(['\n', '\n'] + t)) + c)
  {
    SplitPair(t);
    SplitPair(t + c);
    assert (['\n', '\n'] + t) + c == ['\n', '\n'] + (t + c);
    BlankFirst(Split(t), Split(Last(Split(t)) + c));
  }

  lemma {:induction false} SplitInParts(x: string, c: string)
    ensures Split(x + c) == Init(Split(x)) + Split(Last(Split(x)) + c)
  {
    OnePiece(x);
    if |Split(x)| == 1 {
      assert Init(Split(x)) == [];
    } else if StartsPair(x) {
      assert x == ['\n', '\n'] + x[2..];
      SplitInParts(x[2..], c);
      PartsAfterPair(x[2..], c);
    } else {
      assert x + c == [x[0]] + (x[1..] + c);
      SplitInParts(x[1..], c);
      SplitCons(x[0], x[1..] + c);
      AddToFirst(x[0], Split(x[1..]), Split(Last(Split(x[1..])) + c));
    }
  }

  /** One more chunk extends the pieces of the whole text exactly as it extends those of the held rest. */
  lemma {:induction false} SplitNextChunk(t: string, c: string)
    requires NoCrCrLf(t + c)
    ensures var pieces := Split(Normalised(t));
            Split(Normalised(t + c)) == Init(pieces) + Split(Normalised(Last(pieces) + c))
  {
    var n := Normalised(t);
    var pieces := Split(n);
    var held := Last(pieces);
    NormaliseInParts(t, c);
    assert NoCrCrLf(t) by {
      forall i | 0 <= i < |t| - 2
        ensures !(t[i] == '\r' && t[i + 1] == '\r' && t[i + 2] == '\n')
      {
        assert (t + c)[i] == t[i] && (t + c)[i + 1] == t[i + 1] && (t + c)[i + 2] == t[i + 2];
      }
    }
    NormalisedIsClean(t);
    var head := BeforeLastPiece(n);
    assert n + c == head + (held + c);
    SuffixNoCrLf(n, |head|);
    assert head == n[..|head|];
    CleanPrefixStays(head, held + c);
    SplitInParts(head, Normalised(held + c));
    assert Init(Split(head)) == Init(pieces);
    assert "" + Normalised(held + c) == Normalised(held + c);
  }

  lemma {:induction false} NonBlankSnoc(a: seq<string>, f: string)
    ensures NonBlank(a + [f]) == NonBlank(a) + if Blank(f) then [] else [f]
  {
    assert Init(a + [f]) == a && Last(a + [f]) == f;
  }

  lemma {:induction false} NonBlankInParts(a: seq<string>, b: seq<string>)
    ensures NonBlank(a + b) == NonBlank(a) + NonBlank(b)
    decreases |b|
  {
    if b == [] {
      assert a + b == a;
    } else {
      var init, last := Init(b), Last(b);
      NonBlankInParts(a, init);
      NonBlankSnoc(a + init, last);
      assert a + b == a + init + [last];
    }
  }

  lemma {:induction false} InitOfSum<T>(a: seq<T>, b: seq<T>)
    requires b != []
    ensures Init(a + b) == a + Init(b) && Last(a + b) == Last(b)
  {
  }

  lemma {:induction false} FedMatchesText(chunks: seq<string>)
    requires NoCrCrLf(Concat(chunks))
    ensures var pieces := Split(Normalised(Concat(chunks)));
            Fed(chunks) == (NonBlank(Init(pieces)), Last(pieces))
  {
    if chunks != [] {
      var t, c := Concat(Init(chunks)), Last(chunks);
      assert NoCrCrLf(t) by {
        assert forall i | 0 <= i < |t| :: (t + c)[i] == t[i];
      }
      FedMatchesText(Init(chunks));
      SplitNextChunk(t, c);
      var pieces := Split(Normalised(t));
      var more := Split(Normalised(Last(pieces) + c));
      InitOfSum(Init(pieces), more);
      NonBlankInParts(Init(pieces), Init(more));
    }
  }

  lemma {:induction false} RestKeepsClean(t: string, rest: string)
    requires NoCrCrLf(t) && NoLineEnds(rest)
    ensures NoCrCrLf(t + rest)
  {
    var text := t + rest;
    forall i | 0 <= i < |text| - 2
      ensures !(text[i] == '\r' && text[i + 1] == '\r' && text[i + 2] == '\n')
    {
      if i + 2 < |t| {
        assert !(t[i] == '\r' && t[i + 1] == '\r' && t[i + 2] == '\n');
      }
    }
  }

  /** However the text is cut into chunks, the frames are those of the whole text. */
  lemma {:induction false} ChunkingIsInvisible(chunks: seq<string>, rest: string)
    requires NoCrCrLf(Concat(chunks)) && NoLineEnds(rest)
    ensures FramesOfChunks(chunks, rest) == FramesAtOnce(Concat(chunks) + rest)
  {
    var t := Concat(chunks);
    var n := Normalised(t);
    var pieces := Split(n);
    FedMatchesText(chunks);
    NormalisedIsClean(t);
    RestKeepsClean(t, rest);
    SplitNextChunk(t, rest);
    LastPieceIsWhole(n);
    var held := Last(pieces);
    assert NoCrLf(held) by {
      var head := BeforeLastPiece(n);
      assert held == n[|head|..];
      SuffixNoCrLf(n, |head|);
    }
    CleanPrefixStays(held, rest);
    NormalisedPlain(rest);
    OnePiece(held + rest);
    NonBlankInParts(Init(pieces), [held + rest]);
  }

  lemma {:induction false} NormalisedPlain(s: string)
    requires NoLineEnds(s)
    ensures Normalised(s) == s
  {
    if s != [] {
      NormalisedPlain(s[1..]);
    }
  }

  lemma {:induction false} LastPieceIsWhole(s: string)
    ensures NoPair(Last(Split(s)))
  {
    if s == [] {
    } else if StartsPair(s) {
      LastPieceIsWhole(s[2..]);
    } else {
      LastPieceIsWhole(s[1..]);
      var r := Split(s[1..]);
      if |r| == 1 {
        OnePiece(s[1..]);
        OnePiece(s);
      }
    }
  }

  lemma {:induction false} FedOne(chunks: seq<string>, c: string)
    ensures var pieces := Split(Normalised(Fed(chunks).1 + c));
            Fed(chunks + [c]) == (Fed(chunks).0 + NonBlank(Init(pieces)), Last(pieces))
  {
    assert Init(chunks + [c]) == chunks;
  }

  /** Without that condition the cuts can show: the CR that a first round leaves before its LF is taken by the next. */
  lemma {:induction false} CrCrLfShowsChunking()
    ensures FramesOfChunks(["a\r\r\nb"], "") == ["a\r\nb"]
    ensures FramesOfChunks(["a\r\r\n", "b"], "") == ["a\nb"]
  {
    UncutExample();
    CutExample();
  }

  lemma {:induction false} UncutExample()
    ensures FramesOfChunks(["a\r\r\nb"], "") == ["a\r\nb"]
  {
    WholeExample();
    ExamplesAreOnePiece();
    FedFirst("a\r\r\nb");
    OnlyPieceHeld("a\r\nb");
  }

  lemma {:induction false} FedFirst(c: string)
    ensures var pieces := Split(Normalised(c)); Fed([c]) == (NonBlank(Init(pieces)), Last(pieces))
  {
    FedOne([], c);
    assert [] + [c] == [c] && "" + c == c;
    assert [] + NonBlank(Init(Split(Normalised(c)))) == NonBlank(Init(Split(Normalised(c))));
  }

  lemma {:induction false} FirstCutExample()
    ensures Fed(["a\r\r\n"]) == ([], "a\r\n")
  {
    FirstPartExample();
    ExamplesAreOnePiece();
    FedFirst("a\r\r\n");
    OnlyPieceHeld("a\r\n");
  }

  lemma {:induction false} CutExample()
    ensures FramesOfChunks(["a\r\r\n", "b"], "") == ["a\nb"]
  {
    FirstCutExample();
    SecondPartExample();
    ExamplesAreOnePiece();
    FedOne(["a\r\r\n"], "b");
    assert ["a\r\r\n"] + ["b"] == ["a\r\r\n", "b"] && "a\r\n" + "b" == "a\r\nb";
    OnlyPieceHeld("a\nb");
  }

  lemma {:induction false} WholeExample()
    ensures Normalised("a\r\r\nb") == "a\r\nb"
  {
    NormalisedPlain("b");
    NormalisedCrLf("b");
    NormalisedCons('\r', "\r\nb");
    NormalisedCons('a', "\r\r\nb");
    assert ['\r', '\n'] + "b" == "\r\nb" && ['\r'] + "\r\nb" == "\r\r\nb" && ['a'] + "\r\r\nb" == "a\r\r\nb";
  }

  lemma {:induction false} FirstPartExample()
    ensures Normalised("a\r\r\n") == "a\r\n"
  {
    NormalisedPlain("");
    NormalisedCrLf("");
    NormalisedCons('\r', "\r\n");
    NormalisedCons('a', "\r\r\n");
    assert ['\r', '\n'] + "" == "\r\n" && ['\r'] + "\r\n" == "\r\r\n" && ['a'] + "\r\r\n" == "a\r\r\n";
  }

  lemma {:induction false} SecondPartExample()
    ensures Normalised("a\r\nb") == "a\nb"
  {
    NormalisedPlain("b");
    NormalisedCrLf("b");
    NormalisedCons('a', "\r\nb");
    assert ['\r', '\n'] + "b" == "\r\nb" && ['a'] + "\r\nb" == "a\r\nb";
  }

  lemma {:induction false} ExamplesAreOnePiece()
    ensures Split("a\r\nb") == ["a\r\nb"] && Split("a\r\n") == ["a\r\n"] && Split("a\nb") == ["a\nb"]
  {
    OnePiece("a\r\nb");
    OnePiece("a\r\n");
    OnePiece("a\nb");
  }

  lemma {:induction false} OnlyPieceHeld(s: string)
    requires !Blank(s)
    ensures NonBlank(Init([s])) == [] && NonBlank([s + ""]) == [s]
  {
    assert Init([s]) == [] && s + "" == s;
  }
}
