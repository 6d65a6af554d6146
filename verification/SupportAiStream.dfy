/** What each upstream frame becomes in the response: handed through, or an escalation carried out and then reported. */
module SupportAiStream {
  import opened Wrappers
  import opened JsText
  import opened SseStream

  datatype Value = Text(text: string) | Flag(flag: bool) | OtherJson(json: string)

  type Payload = map<string, Value>

  /** `JSON.stringify` and `JSON.parse`, known only through what they do to each other. */
  datatype Codec = Codec(stringify: Payload -> string, parse: string -> Option<Payload>)

  ghost predicate Faithful(codec: Codec) {
    forall p: Payload ::
      NoLineEnds(codec.stringify(p)) && codec.stringify(p) != [] && !IsSpace(Last(codec.stringify(p)))
      && codec.parse(" " + codec.stringify(p)) == Some(p)
  }

  const ESCALATION_SUCCESS_MESSAGE := "تم إنشاء تذكرة دعم وتحويل طلبك إلى موظف مختص. يمكنك متابعة التذكرة الآن."
  const ESCALATION_FAILURE_MESSAGE := "تعذر إنشاء تذكرة الدعم تلقائياً. حاول مرة أخرى أو استخدم زر التحويل لموظف الدعم."

  function EncodeSse(codec: Codec, p: Payload): string {
    "data: " + codec.stringify(p) + "\n\n"
  }

  function Lines(s: string): (r: seq<string>)
    ensures |r| >= 1
  {
    if s == [] then [""]
    else if s[0] == '\n' then [""] + Lines(s[1..])
    else
      var r := Lines(s[1..]);
      [[s[0]] + r[0]] + r[1..]
  }

  predicate IsDataLine(line: string) {
    "data:" <= TrimStart(line)
  }

  function FirstDataLine(lines: seq<string>): Option<string> {
    if lines == [] then None
    else if IsDataLine(lines[0]) then Some(lines[0])
    else FirstDataLine(lines[1..])
  }

  function AfterColon(line: string): string {
    if line == [] then [] else if line[0] == ':' then line[1..] else AfterColon(line[1..])
  }

  function ParseSsePayload(codec: Codec, frame: string): Option<Payload> {
    match FirstDataLine(Lines(frame))
    case None => None
    case Some(line) => codec.parse(AfterColon(line))
  }

  predicate IsEscalationIntent(p: Payload) {
    && "type" in p && p["type"] == Text("done")
    && "escalated" in p && p["escalated"] == Flag(true)
    && "id" in p && p["id"].Text?
    && "escalationReason" in p && p["escalationReason"].Text?
    && "priority" in p && p["priority"] in {Text("NORMAL"), Text("HIGH"), Text("URGENT")}
  }

  function Token(message: string): Payload {
    map["type" := Text("token"), "value" := Text(message)]
  }

  /** `createEscalation` gives the ticket's id, or None when it throws. */
  function Transform(codec: Codec, frame: string, createEscalation: Payload -> Option<string>): seq<string> {
    var payload := ParseSsePayload(codec, frame);
    if payload.None? || !IsEscalationIntent(payload.value) then [frame + "\n\n"]
    else
      match createEscalation(payload.value)
      case Some(ticketId) =>
        [EncodeSse(codec, Token(ESCALATION_SUCCESS_MESSAGE)),
         EncodeSse(codec, payload.value["escalated" := Flag(true)]["ticketId" := Text(ticketId)])]
      case None =>
        [EncodeSse(codec, Token(ESCALATION_FAILURE_MESSAGE)),
         EncodeSse(codec, (payload.value - {"escalationReason", "priority"})["escalated" := Flag(false)])]
  }

  lemma {:induction false} OneLine(s: string, t: string)
    requires NoLineEnds(s)
    ensures Lines(s + ['\n'] + t) == [s] + Lines(t)
  {
    if s == [] {
      assert [] + ['\n'] + t == ['\n'] + t;
    } else {
      OneLine(s[1..], t);
      assert (s + ['\n'] + t)[1..] == s[1..] + ['\n'] + t;
      assert [s[0]] + s[1..] == s;
    }
  }

  /** What is encoded is read back, also through the prefix of the data field. */
  lemma {:induction false} ParseOfEncode(codec: Codec, p: Payload)
    requires Faithful(codec)
    ensures ParseSsePayload(codec, EncodeSse(codec, p)) == Some(p)
  {
    var line := "data: " + codec.stringify(p);
    assert EncodeSse(codec, p) == line + ['\n'] + "\n";
    assert NoLineEnds(codec.stringify(p));
    OneLine(line, "\n");
    assert TrimStart(line) == line;
    assert line[0] == 'd' && line[1] == 'a' && line[2] == 't' && line[3] == 'a' && line[4] == ':';
    assert AfterColon(line[4..]) == line[5..];
    assert line[1..][1..][1..][1..] == line[4..];
    assert AfterColon(line) == AfterColon(line[1..]) == AfterColon(line[1..][1..]) == AfterColon(line[1..][1..][1..]);
    assert line[5..] == " " + codec.stringify(p);
  }

  /** A final event that asks for a person, with its id, a reason, and one of the three priorities allowed. */
  predicate AsksForHandoff(p: Payload) {
    && {"type", "escalated", "id", "escalationReason", "priority"} <= p.Keys
    && p["type"] == Text("done") && p["escalated"] == Flag(true)
    && p["id"].Text? && p["escalationReason"].Text?
    && (p["priority"] == Text("NORMAL") || p["priority"] == Text("HIGH") || p["priority"] == Text("URGENT"))
  }

  lemma {:induction false} AfterColonOf(head: string, rest: string)
    requires ':' !in head
    ensures AfterColon(head + [':'] + rest) == rest
    decreases |head|
  {
    if head == [] {
      assert ([] + [':'] + rest)[1..] == rest;
    } else {
      AfterColonOf(head[1..], rest);
      assert (head + [':'] + rest)[1..] == head[1..] + [':'] + rest;
    }
  }

  lemma {:induction false} TrimIndent(indent: string, line: string)
    requires Blank(indent) && (line == [] || !IsSpace(line[0]))
    ensures TrimStart(indent + line) == line
    decreases |indent|
  {
    if indent == [] {
      assert indent + line == line;
    } else {
      assert Blank(indent[1..]) by {
        assert forall i | 0 <= i < |indent[1..]| :: indent[1..][i] == indent[i + 1];
      }
      TrimIndent(indent[1..], line);
      assert (indent + line)[1..] == indent[1..] + line;
    }
  }

  lemma {:induction false} FirstDataLineAt(lines: seq<string>, i: nat)
    requires i < |lines| && "data:" <= TrimStart(lines[i])
    requires forall j | 0 <= j < i :: !("data:" <= TrimStart(lines[j]))
    ensures FirstDataLine(lines) == Some(lines[i])
    decreases i
  {
    if i > 0 {
      assert !IsDataLine(lines[0]);
      FirstDataLineAt(lines[1..], i - 1);
    }
  }

  /** What is parsed is the rest of the first line that begins, after any white space, with "data:". */
  lemma {:induction false} FirstDataLineIsParsed(codec: Codec, frame: string, i: nat, indent: string, rest: string)
    requires i < |Lines(frame)| && Lines(frame)[i] == indent + "data:" + rest && Blank(indent)
    requires forall j | 0 <= j < i :: !("data:" <= TrimStart(Lines(frame)[j]))
    ensures ParseSsePayload(codec, frame) == codec.parse(rest)
  {
    var line := "data:" + rest;
    assert indent + "data:" + rest == indent + line;
    TrimIndent(indent, line);
    FirstDataLineAt(Lines(frame), i);
    assert ':' !in indent + "data" by {
      forall k | 0 <= k < |indent| ensures indent[k] != ':' {
        assert IsSpace(indent[k]);
      }
    }
    AfterColonOf(indent + "data", rest);
    assert indent + "data:" + rest == indent + "data" + [':'] + rest;
  }

  /**
   A frame that is no escalation passes through unchanged; an
   escalation is announced and then reported with its outcome.
   */
  lemma {:induction false} HandoffIsReported(codec: Codec, frame: string, createEscalation: Payload -> Option<string>)
    requires Faithful(codec)
    ensures var out := Transform(codec, frame, createEscalation);
            var p := ParseSsePayload(codec, frame);
            if p.None? || !AsksForHandoff(p.value) then out == [frame + "\n\n"]
            else
              && |out| == 2
              && ParseSsePayload(codec, out[1]).Some?
              && var done := ParseSsePayload(codec, out[1]).value;
                 match createEscalation(p.value)
                 case Some(id) =>
                   && ParseSsePayload(codec, out[0]) == Some(Token(ESCALATION_SUCCESS_MESSAGE))
                   && "escalated" in done && done["escalated"] == Flag(true)
                   && "ticketId" in done && done["ticketId"] == Text(id)
                   && (forall k | k in p.value && k != "ticketId" :: k in done && done[k] == p.value[k])
                 case None =>
                   && ParseSsePayload(codec, out[0]) == Some(Token(ESCALATION_FAILURE_MESSAGE))
                   && "escalated" in done && done["escalated"] == Flag(false)
                   && "escalationReason" !in done && "priority" !in done
                   && (forall k | k in p.value && k !in {"escalationReason", "priority", "escalated"} ::
                         k in done && done[k] == p.value[k])
                   && ("ticketId" in done <==> "ticketId" in p.value)
  {
    var p := ParseSsePayload(codec, frame);
    assert p.Some? ==> (IsEscalationIntent(p.value) <==> AsksForHandoff(p.value));
    ParseOfEncode(codec, Token(ESCALATION_SUCCESS_MESSAGE));
    ParseOfEncode(codec, Token(ESCALATION_FAILURE_MESSAGE));
    if p.Some? && IsEscalationIntent(p.value) {
      match createEscalation(p.value) {
        case Some(id) => ParseOfEncode(codec, p.value["escalated" := Flag(true)]["ticketId" := Text(id)]);
        case None => ParseOfEncode(codec, (p.value - {"escalationReason", "priority"})["escalated" := Flag(false)]);
      }
    }
  }

  // The response as a stream of its own.

  /** A frame that a reader of the response will find again as it is. */
  predicate Solid(b: string) {
    !Blank(b) && Enclosed(b)
  }

  /** No frame boundary inside, and none that could begin at its end. */
  predicate Enclosed(b: string) {
    NoPair(b) && NoCrLf(b) && (b == [] || (Last(b) != '\n' && Last(b) != '\r'))
  }

  /** The bodies a transformed stream should read back as. */
  function Bodies(codec: Codec, frames: seq<string>, createEscalation: Payload -> Option<string>): seq<string> {
    if frames == [] then []
    else WithoutEnds(Transform(codec, frames[0], createEscalation)) + Bodies(codec, frames[1..], createEscalation)
  }

  function WithoutEnds(items: seq<string>): seq<string> {
    seq(|items|, i requires 0 <= i < |items| => if |items[i]| >= 2 then items[i][..|items[i]| - 2] else items[i])
  }

  function Response(codec: Codec, frames: seq<string>, createEscalation: Payload -> Option<string>): string {
    if frames == [] then []
    else Written(Transform(codec, frames[0], createEscalation)) + Response(codec, frames[1..], createEscalation)
  }

  function Written(items: seq<string>): string {
    if items == [] then [] else items[0] + Written(items[1..])
  }

  lemma {:induction false} EnclosedSplits(b: string, t: string)
    requires Enclosed(b)
    ensures Split(b + "\n\n" + t) == [b] + Split(t)
  {
    if b == [] {
      assert [] + "\n\n" + t == ['\n', '\n'] + t;
      SplitPair(t);
    } else {
      var y := b[1..];
      assert Enclosed(y) by {
        SuffixNoCrLf(b, 1);
        forall i | 0 <= i < |y| - 1
          ensures !(y[i] == '\n' && y[i + 1] == '\n')
        {
          assert !(b[i + 1] == '\n' && b[i + 2] == '\n');
        }
      }
      EnclosedSplits(y, t);
      if y != [] {
        assert !(b[0] == '\n' && b[1] == '\n');
      }
      assert b + "\n\n" + t == [b[0]] + (y + "\n\n" + t);
      SplitCons(b[0], y + "\n\n" + t);
      assert [b[0]] + y == b;
    }
  }

  lemma {:induction false} FrameReadsBack(b: string, t: string)
    requires Solid(b)
    ensures FramesAtOnce(b + "\n\n" + t) == [b] + FramesAtOnce(t)
  {
    var p := b + "\n\n";
    assert NoCrLf(p) by {
      forall i | 0 <= i < |p| - 1
        ensures !(p[i] == '\r' && p[i + 1] == '\n')
      {
        if i + 1 < |b| {
          assert !(b[i] == '\r' && b[i + 1] == '\n');
        }
      }
    }
    CleanPrefixStays(p, t);
    EnclosedSplits(b, Normalised(t));
    NonBlankInParts([b], Split(Normalised(t)));
    assert NonBlank([b]) == [b] by {
      assert Init([b]) == [];
    }
  }

  lemma {:induction false} EncodedIsSolid(codec: Codec, p: Payload)
    requires Faithful(codec)
    ensures var e := EncodeSse(codec, p);
            e == "data: " + codec.stringify(p) + "\n\n" && Solid("data: " + codec.stringify(p))
  {
    var j := codec.stringify(p);
    assert NoLineEnds(j);
    var b := "data: " + j;
    assert b[0] == 'd';
    assert Last(b) == Last(j);
    assert NoLineEnds(b);
  }

  /**
   What an escalation frame is replaced by reads back, in
   front of whatever follows, however the frame itself ends.
   */
  lemma {:induction false} EscalationOutputReadsBack(codec: Codec, frame: string,
      createEscalation: Payload -> Option<string>, t: string)
    requires Faithful(codec) && |Transform(codec, frame, createEscalation)| != 1
    ensures var out := Transform(codec, frame, createEscalation);
            FramesAtOnce(Written(out) + t) == WithoutEnds(out) + FramesAtOnce(t)
  {
    var p := ParseSsePayload(codec, frame).value;
    var q, r: Payload;
    match createEscalation(p) {
      case Some(id) =>
        q, r := Token(ESCALATION_SUCCESS_MESSAGE), p["escalated" := Flag(true)]["ticketId" := Text(id)];
      case None =>
        q, r := Token(ESCALATION_FAILURE_MESSAGE), (p - {"escalationReason", "priority"})["escalated" := Flag(false)];
    }
    EncodedIsSolid(codec, q);
    EncodedIsSolid(codec, r);
    TwoItemsReadBack("data: " + codec.stringify(q), "data: " + codec.stringify(r), t);
  }

  /** One frame's output reads back as its bodies, in front of whatever follows. */
  lemma {:induction false} OutputReadsBack(codec: Codec, frame: string, createEscalation: Payload -> Option<string>,
      t: string)
    requires Faithful(codec) && Solid(frame)
    ensures var out := Transform(codec, frame, createEscalation);
            FramesAtOnce(Written(out) + t) == WithoutEnds(out) + FramesAtOnce(t)
  {
    if |Transform(codec, frame, createEscalation)| == 1 {
      OneItemReadsBack(frame, t);
    } else {
      EscalationOutputReadsBack(codec, frame, createEscalation, t);
    }
  }

  lemma {:induction false} OneItemReadsBack(a: string, t: string)
    requires Solid(a)
    ensures FramesAtOnce(Written([a + "\n\n"]) + t) == WithoutEnds([a + "\n\n"]) + FramesAtOnce(t)
  {
    var items := [a + "\n\n"];
    assert Written(items) == a + "\n\n" by { assert items[1..] == []; }
    FrameReadsBack(a, t);
    assert WithoutEnds(items) == [a];
  }

  lemma {:induction false} TwoItemsReadBack(a: string, b: string, t: string)
    requires Solid(a) && Solid(b)
    ensures FramesAtOnce(Written([a + "\n\n", b + "\n\n"]) + t)
            == WithoutEnds([a + "\n\n", b + "\n\n"]) + FramesAtOnce(t)
  {
    var items := [a + "\n\n", b + "\n\n"];
    assert items[1..] == [b + "\n\n"] && items[1..][1..] == [];
    assert Written(items[1..]) == b + "\n\n";
    assert Written(items) + t == a + "\n\n" + (b + "\n\n" + t);
    FrameReadsBack(a, b + "\n\n" + t);
    FrameReadsBack(b, t);
    assert WithoutEnds(items) == [a, b];
  }

  lemma {:induction false} ResponseReadsBack(codec: Codec, frames: seq<string>,
      createEscalation: Payload -> Option<string>)
    requires Faithful(codec) && forall i | 0 <= i < |frames| :: Solid(frames[i])
    ensures FramesAtOnce(Response(codec, frames, createEscalation)) == Bodies(codec, frames, createEscalation)
  {
    if frames == [] {
    } else {
      ResponseReadsBack(codec, frames[1..], createEscalation);
      OutputReadsBack(codec, frames[0], createEscalation, Response(codec, frames[1..], createEscalation));
    }
  }

  /** Every piece but the last is enclosed, because the boundary after it was taken as early as possible. */
  lemma {:induction false} InnerPiecesEnclosed(s: string)
    requires NoCrLf(s)
    ensures forall i | 0 <= i < |Split(s)| - 1 :: Enclosed(Split(s)[i])
    ensures NoCrLf(Split(s)[0])
    ensures Split(s)[0] == [] ==> s == [] || StartsPair(s)
    ensures Split(s)[0] != [] ==> s != [] && Split(s)[0][0] == s[0]
  {
    if s == [] {
    } else if StartsPair(s) {
      SuffixNoCrLf(s, 2);
      InnerPiecesEnclosed(s[2..]);
    } else {
      SuffixNoCrLf(s, 1);
      InnerPiecesEnclosed(s[1..]);
      var r := Split(s[1..]);
      var first := [s[0]] + r[0];
      if r[0] != [] {
        assert !(s[0] == '\r' && s[1] == '\n');
      }
      forall i | 0 <= i < |first| - 1
        ensures !(first[i] == '\r' && first[i + 1] == '\n')
      {
        if i > 0 {
          assert !(r[0][i - 1] == '\r' && r[0][i] == '\n');
        }
      }
      if |r| > 1 {
        FirstEnclosed(s, r[0]);
      }
    }
  }

  lemma {:induction false} FirstEnclosed(s: string, r: string)
    requires s != [] && !StartsPair(s) && NoCrLf(s) && Enclosed(r)
    requires r == [] ==> s[1..] == [] || StartsPair(s[1..])
    requires r != [] ==> |s| >= 2 && r[0] == s[1]
    requires |Split(s[1..])| > 1
    ensures Enclosed([s[0]] + r)
  {
    var first := [s[0]] + r;
    if |s| >= 2 {
      assert !(s[0] == '\r' && s[1] == '\n');
    }
    forall i | 0 <= i < |first| - 1
      ensures !(first[i] == '\r' && first[i + 1] == '\n') && !(first[i] == '\n' && first[i + 1] == '\n')
    {
      if i > 0 {
        assert !(r[i - 1] == '\r' && r[i] == '\n') && !(r[i - 1] == '\n' && r[i] == '\n');
      }
    }
  }

  lemma {:induction false} NonBlankPiecesSolid(pieces: seq<string>)
    requires forall i | 0 <= i < |pieces| :: Enclosed(pieces[i])
    ensures forall i | 0 <= i < |NonBlank(pieces)| :: Solid(NonBlank(pieces)[i])
  {
    if pieces != [] {
      NonBlankPiecesSolid(Init(pieces));
    }
  }

  // ---- The frame at the end of the stream ----

  predicate IsEscalation(codec: Codec, frame: string) {
    var p := ParseSsePayload(codec, frame); p.Some? && IsEscalationIntent(p.value)
  }

  predicate EndsInLine(b: string) {
    b == [] || (Last(b) != '\n' && Last(b) != '\r')
  }

  lemma {:induction false} PiecesAreShorter(s: string)
    requires |Split(s)| >= 2
    ensures forall i | 0 <= i < |Split(s)| :: |Split(s)[i]| <= |s| - 2
  {
    if StartsPair(s) {
      PiecesOfTail(s[2..]);
    } else if |s| > 0 {
      PiecesAreShorter(s[1..]);
    }
  }

  lemma {:induction false} PiecesOfTail(s: string)
    ensures forall i | 0 <= i < |Split(s)| :: |Split(s)[i]| <= |s|
  {
    if StartsPair(s) {
      PiecesOfTail(s[2..]);
    } else if s != [] {
      PiecesOfTail(s[1..]);
    }
  }

  /** A frame that ends in a line feed loses it: the two that close it are taken one too early. */
  lemma {:induction false} LineFeedIsLost(m: string)
    requires Enclosed(m) && !Blank(m)
    ensures FramesAtOnce(m + "\n" + "\n\n") == [m]
  {
    FrameReadsBack(m, "\n");
    assert m + "\n" + "\n\n" == m + "\n\n" + "\n";
    NormalisedOne();
    assert Split("\n") == ["\n"] by { OnePiece("\n"); }
    assert NonBlank(["\n"]) == [] by { assert Init(["\n"]) == [] && Blank("\n"); }
    assert [m] + [] == [m];
  }

  lemma {:induction false} NormalisedOne()
    ensures Normalised("\n") == "\n"
  {
    assert Normalised([]) == [];
    NormalisedCons('\n', []);
    assert ['\n'] + [] == "\n";
  }

  lemma {:induction false} CarriageReturnMeetsLineFeed(m: string)
    requires NoCrLf(m)
    ensures Normalised(m + "\r" + "\n\n") == m + "\n\n"
  {
    CleanPrefixStays(m, "\r\n\n");
    NormalisedOne();
    NormalisedCrLf("\n");
    assert ['\r', '\n'] + "\n" == "\r\n\n" && ['\n'] + "\n" == "\n\n";
    assert m + "\r" + "\n\n" == m + "\r\n\n";
  }

  /** A frame that ends in a carriage return loses it to the line feed written behind it. */
  lemma {:induction false} CarriageReturnIsLost(m: string)
    requires NoCrLf(m)
    ensures forall f | f in FramesAtOnce(m + "\r" + "\n\n") :: |f| <= |m|
  {
    var s := m + "\n\n";
    CarriageReturnMeetsLineFeed(m);
    assert s[|m|] == '\n' && s[|m| + 1] == '\n';
    OnePiece(s);
    PiecesAreShorter(s);
    NonBlankAreSome(Split(s));
  }

  lemma {:induction false} NonBlankAreSome(pieces: seq<string>)
    ensures forall f | f in NonBlank(pieces) :: f in pieces
    decreases |pieces|
  {
    if pieces != [] {
      NonBlankAreSome(Init(pieces));
      assert Last(pieces) in pieces && forall f | f in Init(pieces) :: f in pieces;
    }
  }

  /** A last frame that is handed through is read back if and only if it ends in a line's text. */
  lemma {:induction false} LastFrameReadsBack(b: string)
    requires !Blank(b) && NoPair(b) && NoCrLf(b)
    ensures FramesAtOnce(b + "\n\n") == [b] <==> EndsInLine(b)
  {
    if EndsInLine(b) {
      FrameReadsBack(b, "");
      assert b + "\n\n" + "" == b + "\n\n" && FramesAtOnce("") == [] by { NoFrames(); }
    } else {
      var n := |b| - 1;
      var m := b[..n];
      SuffixNoCrLf(b, n);
      if b[n] == '\n' {
        assert b == m + "\n";
        BeforeLineFeed(b);
        LineFeedIsLost(m);
        assert [m][0] != [b][0];
      } else {
        assert b == m + "\r";
        CarriageReturnIsLost(m);
        assert b in [b];
      }
    }
  }

  lemma {:induction false} NoFrames()
    ensures FramesAtOnce("") == []
  {
    assert Normalised("") == "" && Split("") == [""];
    assert Init([""]) == [] && Blank("");
    assert NonBlank([""]) == NonBlank([]);
  }

  lemma {:induction false} BeforeLineFeed(b: string)
    requires !Blank(b) && NoPair(b) && NoCrLf(b) && b != [] && Last(b) == '\n'
    ensures Enclosed(Init(b)) && !Blank(Init(b))
  {
    var n := |b| - 1;
    var m := Init(b);
    SuffixNoCrLf(b, n);
    forall i | 0 <= i < |m| - 1 ensures !(m[i] == '\n' && m[i + 1] == '\n') {
      assert !(b[i] == '\n' && b[i + 1] == '\n');
    }
    if m != [] {
      var i := n - 1;
      assert b[i + 1] == '\n' && Last(m) == b[i];
    }
    if Blank(m) {
      forall i | 0 <= i < |b| ensures IsSpace(b[i]) {
        if i < n {
          assert b[i] == m[i];
        }
      }
    }
  }

  // ---- End to end ----

  lemma {:induction false} ResponseOfSum(codec: Codec, a: seq<string>, b: seq<string>,
      createEscalation: Payload -> Option<string>)
    ensures Response(codec, a + b, createEscalation)
            == Response(codec, a, createEscalation) + Response(codec, b, createEscalation)
    ensures Bodies(codec, a + b, createEscalation)
            == Bodies(codec, a, createEscalation) + Bodies(codec, b, createEscalation)
    decreases |a|
  {
    if a == [] {
      assert a + b == b;
    } else {
      assert (a + b)[1..] == a[1..] + b;
      ResponseOfSum(codec, a[1..], b, createEscalation);
    }
  }

  /** The frames before the last read back whatever follows them. */
  lemma {:induction false} SolidFramesReadBack(codec: Codec, frames: seq<string>,
      createEscalation: Payload -> Option<string>, t: string)
    requires Faithful(codec) && forall i | 0 <= i < |frames| :: Solid(frames[i])
    ensures FramesAtOnce(Response(codec, frames, createEscalation) + t)
            == Bodies(codec, frames, createEscalation) + FramesAtOnce(t)
    decreases |frames|
  {
    if frames == [] {
      assert [] + t == t;
    } else {
      var later := Response(codec, frames[1..], createEscalation);
      SolidFramesReadBack(codec, frames[1..], createEscalation, t);
      OutputReadsBack(codec, frames[0], createEscalation, later + t);
      Regroup(Written(Transform(codec, frames[0], createEscalation)), later, t);
      Regroup(WithoutEnds(Transform(codec, frames[0], createEscalation)), Bodies(codec, frames[1..], createEscalation),
        FramesAtOnce(t));
    }
  }

  lemma {:induction false} Regroup<T>(a: seq<T>, b: seq<T>, c: seq<T>)
    ensures a + b + c == a + (b + c)
  {
  }

  lemma {:induction false} ResponseOfOne(codec: Codec, frame: string, createEscalation: Payload -> Option<string>)
    ensures Response(codec, [frame], createEscalation) == Written(Transform(codec, frame, createEscalation))
    ensures Bodies(codec, [frame], createEscalation) == WithoutEnds(Transform(codec, frame, createEscalation))
  {
    assert [frame][1..] == [];
    assert Response(codec, [], createEscalation) == [] && Bodies(codec, [], createEscalation) == [];
  }

  /** What the last frame of a stream is read as. */
  lemma {:induction false} LastOutputReadsBack(codec: Codec, frame: string, createEscalation: Payload -> Option<string>)
    requires Faithful(codec) && !Blank(frame) && NoPair(frame) && NoCrLf(frame)
    ensures FramesAtOnce(Response(codec, [frame], createEscalation)) == Bodies(codec, [frame], createEscalation)
            <==> IsEscalation(codec, frame) || EndsInLine(frame)
  {
    ResponseOfOne(codec, frame, createEscalation);
    var out := Transform(codec, frame, createEscalation);
    if IsEscalation(codec, frame) {
      EscalationReadsBack(codec, frame, createEscalation);
    } else {
      assert Written(out) == frame + "\n\n" by { assert out[1..] == []; }
      assert WithoutEnds(out) == [frame];
      LastFrameReadsBack(frame);
    }
  }

  lemma {:induction false} EscalationReadsBack(codec: Codec, frame: string, createEscalation: Payload -> Option<string>)
    requires Faithful(codec) && IsEscalation(codec, frame)
    ensures FramesAtOnce(Written(Transform(codec, frame, createEscalation)))
            == WithoutEnds(Transform(codec, frame, createEscalation))
  {
    EscalationOutputReadsBack(codec, frame, createEscalation, "");
    NoFrames();
    var out := Transform(codec, frame, createEscalation);
    assert Written(out) + "" == Written(out) && WithoutEnds(out) + [] == WithoutEnds(out);
  }

  /**
   End to end, with whatever the decoder still flushes: the client reads the frames of the whole text, each
   escalation replaced by its announcement and report, however the text was cut into chunks, if and only if
   the last piece is blank, is an escalation, or ends in neither line feed nor carriage return.
   */
  lemma {:induction false} ProxyIsTransparent(codec: Codec, chunks: seq<string>, rest: string,
      createEscalation: Payload -> Option<string>)
    requires Faithful(codec) && NoCrCrLf(Concat(chunks)) && NoLineEnds(rest)
    ensures var text := Concat(chunks) + rest;
            var last := Last(Split(Normalised(text)));
            FramesAtOnce(Response(codec, FramesOfChunks(chunks, rest), createEscalation))
              == Bodies(codec, FramesAtOnce(text), createEscalation)
            <==> Blank(last) || IsEscalation(codec, last) || EndsInLine(last)
  {
    var text := Concat(chunks) + rest;
    ChunkingIsInvisible(chunks, rest);
    RestKeepsClean(Concat(chunks), rest);
    NormalisedIsClean(text);
    WholeTextReadsBack(codec, Normalised(text), createEscalation);
  }

  lemma {:induction false} SamePrefix(x: seq<string>, a: seq<string>, b: seq<string>)
    ensures x + a == x + b <==> a == b
  {
    assert (x + a)[|x|..] == a && (x + b)[|x|..] == b;
  }

  lemma {:induction false} LastFrameDecides(codec: Codec, inner: seq<string>, last: string,
      createEscalation: Payload -> Option<string>)
    requires Faithful(codec) && forall i | 0 <= i < |inner| :: Solid(inner[i])
    requires !Blank(last) && NoPair(last) && NoCrLf(last)
    ensures FramesAtOnce(Response(codec, inner + [last], createEscalation))
            == Bodies(codec, inner + [last], createEscalation)
            <==> IsEscalation(codec, last) || EndsInLine(last)
  {
    var response, bodies := Response(codec, [last], createEscalation), Bodies(codec, [last], createEscalation);
    LastOutputReadsBack(codec, last, createEscalation);
    ResponseOfSum(codec, inner, [last], createEscalation);
    SolidFramesReadBack(codec, inner, createEscalation, response);
    SamePrefix(Bodies(codec, inner, createEscalation), FramesAtOnce(response), bodies);
  }

  lemma {:induction false} WholeTextReadsBack(codec: Codec, s: string, createEscalation: Payload -> Option<string>)
    requires Faithful(codec) && NoCrLf(s)
    ensures var last := Last(Split(s));
            FramesAtOnce(Response(codec, NonBlank(Split(s)), createEscalation))
              == Bodies(codec, NonBlank(Split(s)), createEscalation)
            <==> Blank(last) || IsEscalation(codec, last) || EndsInLine(last)
  {
    var inner, last := NonBlank(Init(Split(s))), Last(Split(s));
    InnerPiecesEnclosed(s);
    NonBlankPiecesSolid(Init(Split(s)));
    LastPieceIsClean(s);
    if Blank(last) {
      assert NonBlank(Split(s)) == inner;
      ResponseReadsBack(codec, inner, createEscalation);
    } else {
      LastFrameDecides(codec, inner, last, createEscalation);
    }
  }

  lemma {:induction false} LastPieceIsClean(s: string)
    requires NoCrLf(s)
    ensures NoPair(Last(Split(s))) && NoCrLf(Last(Split(s)))
  {
    LastPieceIsWhole(s);
    var head := BeforeLastPiece(s);
    assert Last(Split(s)) == s[|head|..];
    SuffixNoCrLf(s, |head|);
  }

  lemma {:induction false} NormalisedFrame(b: string)
    requires NoPair(b) && NoCrLf(b)
    ensures Split(Normalised(b)) == [b]
  {
    CleanPrefixStays(b, "");
    assert b + "" == b && Normalised("") == "";
    OnePiece(b);
  }

  lemma {:induction false} ConcatOne(b: string)
    ensures Concat([b]) == b
  {
    assert Init([b]) == [] && Concat([]) == "";
  }

  lemma {:induction false} OneFrameHeld(b: string)
    requires !Blank(b) && NoPair(b) && NoCrLf(b)
    ensures FramesOfChunks([b], "") == [b]
  {
    ConcatOne(b);
    ChunkingIsInvisible([b], "");
    assert b + "" == b;
    NormalisedFrame(b);
    OnlyPieceHeld(b);
  }

  lemma {:induction false} DataLineIsParsed(codec: Codec)
    ensures ParseSsePayload(codec, "data: x" + "\n") == codec.parse(" x")
  {
    var line := "data: x";
    assert line + "\n" == line + ['\n'] + "";
    OneLine(line, "");
    assert TrimStart(line) == line;
    assert line[1..][1..][1..][1..] == line[4..] && line[5..] == " x";
    assert AfterColon(line) == AfterColon(line[1..]) == AfterColon(line[1..][1..]) == AfterColon(line[1..][1..][1..]);
    assert AfterColon(line[4..]) == line[5..];
  }

  /** A last frame that is not closed, is no escalation and ends in a line feed is read without it. */
  lemma {:induction false} UnclosedFrameIsCut(codec: Codec, m: string, createEscalation: Payload -> Option<string>)
    requires Enclosed(m) && !Blank(m) && !IsEscalation(codec, m + "\n")
    ensures Response(codec, FramesOfChunks([m + "\n"], ""), createEscalation) == m + "\n" + "\n\n"
    ensures FramesAtOnce(m + "\n" + "\n\n") == [m]
  {
    var b := m + "\n";
    assert !Blank(b) by {
      var i :| 0 <= i < |m| && !IsSpace(m[i]);
      assert b[i] == m[i];
    }
    LineFeedKeepsOnePiece(m);
    OneFrameHeld(b);
    ResponseOfOne(codec, b, createEscalation);
    assert [b + "\n\n"][1..] == [] && Written([]) == [];
    assert b + "\n\n" + [] == b + "\n\n";
    LineFeedIsLost(m);
  }

  lemma {:induction false} LineFeedKeepsOnePiece(m: string)
    requires Enclosed(m)
    ensures NoPair(m + "\n") && NoCrLf(m + "\n")
  {
    var b := m + "\n";
    forall i | 0 <= i < |b| - 1 ensures !(b[i] == '\n' && b[i + 1] == '\n') && !(b[i] == '\r' && b[i + 1] == '\n') {
      if i + 1 < |m| {
        assert !(m[i] == '\n' && m[i + 1] == '\n') && !(m[i] == '\r' && m[i + 1] == '\n');
      }
    }
  }

  /** For instance "data: x" and one line feed, where no JSON follows the colon. */
  lemma {:induction false} UnclosedFrameFails(codec: Codec, createEscalation: Payload -> Option<string>)
    requires codec.parse(" x").None?
    ensures FramesAtOnce(Response(codec, FramesOfChunks(["data: x" + "\n"], ""), createEscalation)) == ["data: x"]
  {
    DataLineIsParsed(codec);
    var m := "data: x";
    assert m[0] == 'd' && !IsSpace(m[0]) && NoLineEnds(m);
    UnclosedFrameIsCut(codec, m, createEscalation);
  }
}
