/** Newline framing of the bytes that arrive on a socket in chunks, each decoded
    by itself. */
module SocketFraming {
  import opened Utf16
  import opened Utf8

  const NEWLINE: Unit := 0x0A

  /** `!line.trim()`. */
  predicate Blank(line: Text) {
    Trim(line) == []
  }

  /** `c` in front of the first piece. */
  function Prepend(c: Unit, pieces: seq<Text>): (r: seq<Text>)
    requires pieces != []
    ensures |r| == |pieces|
  {
    [[c] + pieces[0]] + pieces[1..]
  }

  /** `text.split('\n')`: the pieces between newlines; never empty. */
  function Split(text: Text): (r: seq<Text>)
    ensures r != []
  {
    if text == [] then [[]]
    else if text[0] == NEWLINE then [[]] + Split(text[1..])
    else Prepend(text[0], Split(text[1..]))
  }

  /** The complete lines of a text, and what follows its last newline. */
  function Lines(text: Text): seq<Text> {
    Split(text)[..|Split(text)| - 1]
  }

  function Remainder(text: Text): Text {
    Split(text)[|Split(text)| - 1]
  }

  lemma PrependLater(c: Unit, init: seq<Text>, rest: seq<Text>)
    requires init != []
    ensures Prepend(c, init + rest) == Prepend(c, init) + rest
  {
  }

  lemma LinesOfPrepend(c: Unit, text: Text)
    requires c != NEWLINE
    ensures var s, t := Split(text), Split([c] + text);
      if |s| == 1 then Lines([c] + text) == [] && Remainder([c] + text) == [c] + Remainder(text)
      else Lines([c] + text) == Prepend(c, Lines(text)) && Remainder([c] + text) == Remainder(text)
  {
    assert ([c] + text)[1..] == text;
  }

  /** Splitting a longer text continues the last piece of the shorter one. */
  lemma {:induction false} SplitAppend(a: Text, b: Text)
    ensures Split(a + b) == Lines(a) + Split(Remainder(a) + b)
  {
    if a == [] {
      assert a + b == b && Remainder(a) + b == b;
    } else {
      var c, t := a[0], a[1..];
      assert a == [c] + t && (a + b)[1..] == t + b && (a + b)[0] == c;
      SplitAppend(t, b);
      if c == NEWLINE {
        assert Lines(a) == [[]] + Lines(t) && Remainder(a) == Remainder(t);
      } else {
        LinesOfPrepend(c, t);
        if |Split(t)| == 1 {
          assert ([c] + Remainder(t) + b)[1..] == Remainder(t) + b;
          assert Lines(t) + Split(Remainder(t) + b) == Split(Remainder(t) + b);
          assert Split(Remainder(a) + b) == Prepend(c, Split(Remainder(t) + b));
        } else {
          PrependLater(c, Lines(t), Split(Remainder(t) + b));
        }
      }
    }
  }

  // ----- the data handler -----

  /** A frame handed to dispatch, or one rejected for its size. */
  datatype Frame = Dispatched(line: Text) | TooLong(line: Text)

  /** The frames that the lines of one chunk give: blank lines are skipped. */
  function Frames(lines: seq<Text>, over: Text -> bool): seq<Frame> {
    if lines == [] then []
    else
      var before, line := Frames(lines[..|lines| - 1], over), lines[|lines| - 1];
      if Blank(line) then before else if over(line) then before + [TooLong(line)] else before + [Dispatched(line)]
  }

  class FramedSocket {
    /** Whether a text exceeds the byte cap. */
    const over: Text -> bool
    var buffer: Text
    var destroyed: bool

    constructor (over: Text -> bool)
      ensures this.over == over && buffer == [] && !destroyed
    {
      this.over := over;
      buffer, destroyed := [], false;
    }

    /** The loop over the complete lines. */
    method HandOver(lines: seq<Text>) returns (frames: seq<Frame>)
      ensures frames == Frames(lines, over)
    {
      frames := [];
      for i := 0 to |lines|
        invariant frames == Frames(lines[..i], over)
      {
        assert lines[..i + 1][..i] == lines[..i];
        if Blank(lines[i]) { continue; }
        if over(lines[i]) {
          frames := frames + [TooLong(lines[i])];
          continue;
        }
        frames := frames + [Dispatched(lines[i])];
      }
      assert lines[..|lines|] == lines;
    }

    method OnData(data: Bytes) returns (frames: seq<Frame>)
      requires !destroyed
      modifies this
      ensures var text := old(buffer) + Decode(data);
        && (destroyed <==> over(Remainder(text)))
        && (destroyed ==> buffer == [] && frames == [])
        && (!destroyed ==> buffer == Remainder(text) && frames == Frames(Lines(text), over))
    {
      buffer := buffer + Decode(data);
      var lines := Split(buffer);
      buffer := lines[|lines| - 1];
      lines := lines[..|lines| - 1];
      if over(buffer) {
        buffer := [];
        destroyed := true;
        return [];
      }
      frames := HandOver(lines);
    }
  }

  // ----- whole streams -----

  /** The socket after some chunks: its buffer, the frames so far, and whether it lives. */
  datatype Stream = Live(buffer: Text, frames: seq<Frame>) | Dead(frames: seq<Frame>)

  function Receive(s: Stream, chunk: Text, over: Text -> bool): Stream {
    match s
    case Dead(_) => s
    case Live(buffer, frames) =>
      if over(Remainder(buffer + chunk)) then Dead(frames)
      else Live(Remainder(buffer + chunk), frames + Frames(Lines(buffer + chunk), over))
  }

  function ReceiveAll(chunks: seq<Bytes>, over: Text -> bool): Stream {
    if chunks == [] then Live([], [])
    else Receive(ReceiveAll(chunks[..|chunks| - 1], over), Decode(chunks[|chunks| - 1]), over)
  }

  lemma {:induction false} FramesAppend(a: seq<Text>, b: seq<Text>, over: Text -> bool)
    ensures Frames(a + b, over) == Frames(a, over) + Frames(b, over)
  {
    if b == [] {
      assert a + b == a;
    } else {
      assert (a + b)[..|a + b| - 1] == a + b[..|b| - 1];
      FramesAppend(a, b[..|b| - 1], over);
    }
  }

  lemma LinesAppend(a: Text, b: Text)
    ensures Lines(a + b) == Lines(a) + Lines(Remainder(a) + b)
    ensures Remainder(a + b) == Remainder(Remainder(a) + b)
  {
    SplitAppend(a, b);
  }

  function RemainderAt(chunks: seq<Bytes>, k: nat): Text
    requires k <= |chunks|
  {
    Remainder(Arrived(chunks[..k]))
  }

  /** No remainder exceeded the cap after any chunk. */
  ghost predicate Bounded(chunks: seq<Bytes>, over: Text -> bool) {
    forall k :: 0 <= k <= |chunks| ==> !over(RemainderAt(chunks, k))
  }

  /** The first chunk after which the remainder exceeded the cap. */
  ghost predicate FirstOver(chunks: seq<Bytes>, over: Text -> bool, k: nat) {
    0 < k <= |chunks| && over(RemainderAt(chunks, k)) && Bounded(chunks[..k - 1], over)
  }

  lemma BoundedInit(chunks: seq<Bytes>, over: Text -> bool)
    requires chunks != []
    ensures var init := chunks[..|chunks| - 1];
      Bounded(chunks, over) <==> Bounded(init, over) && !over(Remainder(Arrived(chunks)))
  {
    var init := chunks[..|chunks| - 1];
    forall k | 0 <= k <= |init| ensures RemainderAt(init, k) == RemainderAt(chunks, k) {
      assert init[..k] == chunks[..k];
    }
    assert chunks[..|chunks|] == chunks;
    assert RemainderAt(chunks, |chunks|) == Remainder(Arrived(chunks));
  }

  lemma FirstOverInit(chunks: seq<Bytes>, over: Text -> bool, k: nat)
    requires chunks != [] && FirstOver(chunks[..|chunks| - 1], over, k)
    ensures FirstOver(chunks, over, k)
    ensures chunks[..|chunks| - 1][..k - 1] == chunks[..k - 1]
  {
    assert chunks[..|chunks| - 1][..k] == chunks[..k] && chunks[..|chunks| - 1][..k - 1] == chunks[..k - 1];
  }

  /** While the socket lives, its buffer is the text after the last newline, within
      the cap, and its frames are those of the whole text so far; it dies exactly
      when such a remainder exceeds the cap after some chunk, with the frames of
      the text before that chunk. */
  lemma {:induction false} FramingOfPrefix(chunks: seq<Bytes>, over: Text -> bool) returns (k: nat)
    requires !over([])
    ensures match ReceiveAll(chunks, over)
      case Live(buffer, frames) =>
        Bounded(chunks, over) && buffer == Remainder(Arrived(chunks)) && frames == Frames(Lines(Arrived(chunks)), over)
      case Dead(frames) =>
        FirstOver(chunks, over, k) && frames == Frames(Lines(Arrived(chunks[..k - 1])), over)
  {
    k := 0;
    if chunks == [] { return; }
    var init, last := chunks[..|chunks| - 1], chunks[|chunks| - 1];
    k := FramingOfPrefix(init, over);
    if ReceiveAll(init, over).Dead? {
      FirstOverInit(chunks, over, k);
      return;
    }
    k := |chunks|;
    assert chunks[..k] == chunks;
    LinesAppend(Arrived(init), Decode(last));
    BoundedInit(chunks, over);
    FramesAppend(Lines(Arrived(init)), Lines(Remainder(Arrived(init)) + Decode(last)), over);
  }

  /** However the same bytes are cut into chunks, if no cut separates the bytes of
      a character, a socket that outlives both cuts hands over the same frames and
      keeps the same buffer. */
  lemma ChunkingIrrelevant(a: seq<Bytes>, b: seq<Bytes>, over: Text -> bool)
    requires !over([]) && Joined(a) == Joined(b) && CleanCuts(a) && CleanCuts(b)
    requires ReceiveAll(a, over).Live? && ReceiveAll(b, over).Live?
    ensures ReceiveAll(a, over) == ReceiveAll(b, over)
  {
    ChunksDecodeIff(a);
    ChunksDecodeIff(b);
    var _ := FramingOfPrefix(a, over);
    var _ := FramingOfPrefix(b, over);
  }

  // ----- replacements, counted over lines and frames -----

  function InAll(pieces: seq<Text>): nat {
    if pieces == [] then 0 else Replacements(pieces[0]) + InAll(pieces[1..])
  }

  function InFrames(frames: seq<Frame>): nat {
    if frames == [] then 0 else InFrames(frames[..|frames| - 1]) + Replacements(frames[|frames| - 1].line)
  }

  lemma {:induction false} InAllAppend(a: seq<Text>, b: seq<Text>)
    ensures InAll(a + b) == InAll(a) + InAll(b)
  {
    if a == [] {
      assert a + b == b;
    } else {
      assert (a + b)[0] == a[0] && (a + b)[1..] == a[1..] + b;
      InAllAppend(a[1..], b);
    }
  }

  lemma InAllLast(init: seq<Text>, last: Text)
    ensures InAll(init + [last]) == InAll(init) + Replacements(last)
  {
    InAllAppend(init, [last]);
    assert [last][1..] == [];
  }

  /** Splitting loses no replacement: a newline is none. */
  lemma {:induction false} SplitReplaces(text: Text)
    ensures InAll(Split(text)) == Replacements(text)
  {
    if text == [] {
      assert Split(text)[1..] == [];
    } else {
      var c, rest := text[0], Split(text[1..]);
      SplitReplaces(text[1..]);
      if c == NEWLINE {
        assert ([[]] + rest)[1..] == rest;
      } else {
        assert Prepend(c, rest)[1..] == rest[1..];
        assert ([c] + rest[0])[1..] == rest[0];
      }
    }
  }

  lemma LinesReplace(text: Text)
    ensures Replacements(text) == InAll(Lines(text)) + Replacements(Remainder(text))
  {
    SplitReplaces(text);
    InAllLast(Lines(text), Remainder(text));
    assert Split(text) == Lines(text) + [Remainder(text)];
  }

  lemma {:induction false} TrimStartReplaces(t: Text)
    ensures Replacements(TrimStart(t)) == Replacements(t)
  {
    if t != [] && Space(t[0]) { TrimStartReplaces(t[1..]); }
  }

  lemma {:induction false} TrimEndReplaces(t: Text)
    ensures Replacements(TrimEnd(t)) == Replacements(t)
  {
    if t != [] && Space(t[|t| - 1]) {
      var init, last := t[..|t| - 1], t[|t| - 1];
      TrimEndReplaces(init);
      assert t == init + [last] && [last][1..] == [];
      ReplacementsAppend(init, [last]);
    }
  }

  lemma BlankHasNone(line: Text)
    requires Blank(line)
    ensures Replacements(line) == 0
  {
    TrimStartReplaces(line);
    TrimEndReplaces(TrimStart(line));
  }

  lemma InFramesLast(init: seq<Frame>, last: Frame)
    ensures InFrames(init + [last]) == InFrames(init) + Replacements(last.line)
  {
    assert (init + [last])[..|init|] == init;
  }

  lemma NoneInNone()
    ensures InAll([]) == 0 && InFrames([]) == 0
  {
  }

  /** The frames hold every replacement of their lines: a skipped line has none. */
  lemma {:induction false} FramesReplace(lines: seq<Text>, over: Text -> bool)
    ensures InFrames(Frames(lines, over)) == InAll(lines)
  {
    hide Blank, Replacements, InAll, InFrames;
    if lines == [] {
      NoneInNone();
    } else {
      var init, last := lines[..|lines| - 1], lines[|lines| - 1];
      FramesReplace(init, over);
      InAllLast(init, last);
      assert lines == init + [last];
      if Blank(last) {
        BlankHasNone(last);
      } else {
        InFramesLast(Frames(init, over), if over(last) then TooLong(last) else Dispatched(last));
      }
    }
  }

  lemma SeenReplaces(text: Text, over: Text -> bool)
    ensures Replacements(text) == InFrames(Frames(Lines(text), over)) + Replacements(Remainder(text))
  {
    LinesReplace(text);
    FramesReplace(Lines(text), over);
  }

  /** A live socket has handed over the frames of its bytes, and holds the rest of
      them in its buffer, exactly when no cut separated two bytes of one part. */
  lemma SeesItsBytesIff(chunks: seq<Bytes>, over: Text -> bool)
    requires !over([]) && ReceiveAll(chunks, over).Live?
    ensures var text := Decode(Joined(chunks));
      ReceiveAll(chunks, over) == Live(Remainder(text), Frames(Lines(text), over)) <==> CleanCuts(chunks)
  {
    var _ := FramingOfPrefix(chunks, over);
    CutsReplace(chunks);
    SeenReplaces(Arrived(chunks), over);
    SeenReplaces(Decode(Joined(chunks)), over);
  }

  /** A cut inside a character is seen: the bytes C3 A9 0A are one line with e acute
      in one chunk, and a line of two replacements when cut after the first byte. */
  lemma CutInsideCharacter(over: Text -> bool)
    requires forall t: Text :: |t| <= 2 ==> !over(t)
    ensures Joined([[0xC3, 0xA9, NEWLINE]]) == Joined([[0xC3], [0xA9, NEWLINE]])
    ensures ReceiveAll([[0xC3, 0xA9, NEWLINE]], over) == Live([], [Dispatched([0xE9])])
    ensures ReceiveAll([[0xC3], [0xA9, NEWLINE]], over) == Live([], [Dispatched([REPLACEMENT, REPLACEMENT])])
  {
    DecodedWhole();
    DecodedApart();
    CutSeen([0xC3, 0xA9, NEWLINE], [0xC3], [0xA9, NEWLINE], over);
  }

  lemma CutSeen(whole: Bytes, a: Bytes, b: Bytes, over: Text -> bool)
    requires !over([]) && !over([0xE9]) && !over([REPLACEMENT]) && !over([REPLACEMENT, REPLACEMENT])
    requires a + b == whole && Decode(whole) == [0xE9, NEWLINE]
    requires Decode(a) == [REPLACEMENT] && Decode(b) == [REPLACEMENT, NEWLINE]
    ensures Joined([whole]) == Joined([a, b])
    ensures ReceiveAll([whole], over) == Live([], [Dispatched([0xE9])])
    ensures ReceiveAll([a, b], over) == Live([], [Dispatched([REPLACEMENT, REPLACEMENT])])
  {
    var one: Text, two: Text := [0xE9], [REPLACEMENT, REPLACEMENT];
    NotBlank(one);
    assert Decode(whole) == one + [NEWLINE];
    OneLine(whole, one, over);
    NotBlank(two);
    assert [REPLACEMENT] + Decode(b) == two + [NEWLINE];
    TwoParts(a, b, [REPLACEMENT], two, over);
    JoinedPair(a, b, whole);
  }

  lemma NotBlank(line: Text)
    requires line != [] && !Space(line[0]) && !Space(line[|line| - 1])
    ensures !Blank(line)
  {
    assert TrimStart(line) == line && TrimEnd(line) == line;
  }

  lemma OneLine(data: Bytes, line: Text, over: Text -> bool)
    requires Decode(data) == line + [NEWLINE] && NEWLINE !in line && !Blank(line) && !over(line) && !over([])
    ensures ReceiveAll([data], over) == Live([], [Dispatched(line)])
  {
    ReceiveOne(data, over);
    assert [] + Decode(data) == line + [NEWLINE];
    ReceiveLine([], Decode(data), line, over);
  }

  lemma TwoParts(a: Bytes, b: Bytes, part: Text, line: Text, over: Text -> bool)
    requires Decode(a) == part && NEWLINE !in part && !over(part)
    requires part + Decode(b) == line + [NEWLINE] && NEWLINE !in line && !Blank(line) && !over(line) && !over([])
    ensures ReceiveAll([a, b], over) == Live([], [Dispatched(line)])
  {
    ReceiveOne(a, over);
    ReceivePart(part, over);
    ReceiveTwo(a, b, over);
    ReceiveLine(part, Decode(b), line, over);
  }

  lemma JoinedPair(a: Bytes, b: Bytes, whole: Bytes)
    requires a + b == whole
    ensures Joined([whole]) == whole == Joined([a, b])
  {
    assert [whole][..0] == [] && [a, b][..1] == [a] && [a][..0] == [];
    assert [] + whole == whole && [] + a == a;
  }

  lemma DecodedWhole()
    ensures Decode([0xC3, 0xA9, NEWLINE]) == [0xE9, NEWLINE]
  {
    var s: Bytes := [0xC3, 0xA9, NEWLINE];
    assert Extent(s, 2) == 2 && Front(s) == 2;
    assert s[..2] == [0xC3, 0xA9] && s[2..] == [NEWLINE];
    assert CodePoint([0xC3, 0xA9]) == 0xE9;
    DecodedNewline();
  }

  lemma DecodedNewline()
    ensures Decode([NEWLINE]) == [NEWLINE]
  {
    var s: Bytes := [NEWLINE];
    assert Front(s) == 1 && s[..1] == s && s[1..] == [];
  }

  lemma DecodedApart()
    ensures Decode([0xC3]) == [REPLACEMENT] && Decode([0xA9, NEWLINE]) == [REPLACEMENT, NEWLINE]
  {
    var a: Bytes, b: Bytes := [0xC3], [0xA9, NEWLINE];
    assert Front(a) == 1 && a[..1] == a && a[1..] == [];
    assert Front(b) == 1 && b[..1] == [0xA9] && b[1..] == [NEWLINE];
    DecodedNewline();
  }

  lemma {:induction false} LineOf(line: Text)
    requires NEWLINE !in line
    ensures Split(line + [NEWLINE]) == [line, []]
  {
    if line == [] {
      assert line + [NEWLINE] == [NEWLINE] && [NEWLINE][1..] == [];
    } else {
      var t := line[1..];
      assert (line + [NEWLINE])[1..] == t + [NEWLINE];
      LineOf(t);
      assert [line[0]] + t == line && [t, []][1..] == [[]];
    }
  }

  lemma {:induction false} PartOf(part: Text)
    requires NEWLINE !in part
    ensures Split(part) == [part]
  {
    if part != [] {
      PartOf(part[1..]);
      assert [part[0]] + part[1..] == part;
    }
  }

  /** A chunk that ends the line it continues, and one that ends none. */
  lemma ReceiveLine(buffer: Text, t: Text, line: Text, over: Text -> bool)
    requires buffer + t == line + [NEWLINE] && NEWLINE !in line && !Blank(line) && !over(line) && !over([])
    ensures Receive(Live(buffer, []), t, over) == Live([], [Dispatched(line)])
  {
    LineOf(line);
    assert [line, []][..1] == [line] && [line][..0] == [];
    assert Frames([line], over) == [Dispatched(line)];
  }

  lemma ReceivePart(t: Text, over: Text -> bool)
    requires NEWLINE !in t && !over(t)
    ensures Receive(Live([], []), t, over) == Live(t, [])
  {
    PartOf(t);
    assert [] + t == t && [t][..0] == [];
  }

  lemma ReceiveOne(data: Bytes, over: Text -> bool)
    ensures ReceiveAll([data], over) == Receive(Live([], []), Decode(data), over)
  {
    assert [data][..0] == [];
  }

  lemma ReceiveTwo(a: Bytes, b: Bytes, over: Text -> bool)
    ensures ReceiveAll([a, b], over) == Receive(ReceiveAll([a], over), Decode(b), over)
  {
    assert [a, b][..1] == [a];
  }

  /** The dispatched frames alone. */
  function DispatchedLines(frames: seq<Frame>): seq<Text> {
    if frames == [] then []
    else
      var before, last := DispatchedLines(frames[..|frames| - 1]), frames[|frames| - 1];
      if last.Dispatched? then before + [last.line] else before
  }

  function NonBlank(lines: seq<Text>): seq<Text> {
    if lines == [] then []
    else NonBlank(lines[..|lines| - 1]) + if Blank(lines[|lines| - 1]) then [] else [lines[|lines| - 1]]
  }

  lemma {:induction false} FramesWithinCap(lines: seq<Text>, over: Text -> bool)
    requires forall line :: line in lines ==> Blank(line) || !over(line)
    ensures DispatchedLines(Frames(lines, over)) == NonBlank(lines) && |Frames(lines, over)| == |NonBlank(lines)|
  {
    if lines != [] {
      FramesWithinCap(lines[..|lines| - 1], over);
      var f := Frames(lines, over);
      if !Blank(lines[|lines| - 1]) { assert f[..|f| - 1] == Frames(lines[..|lines| - 1], over); }
    }
  }

  /** When no line and no remainder exceeds the cap and no cut separates the bytes
      of a character, what is dispatched is the newline split of the text of the
      whole byte stream without its blank lines. */
  lemma StreamIsSplit(chunks: seq<Bytes>, over: Text -> bool)
    requires CleanCuts(chunks) && Bounded(chunks, over)
    requires forall line :: line in Lines(Decode(Joined(chunks))) ==> !over(line)
    ensures ReceiveAll(chunks, over).Live?
    ensures DispatchedLines(ReceiveAll(chunks, over).frames) == NonBlank(Lines(Decode(Joined(chunks))))
  {
    ChunksDecodeIff(chunks);
    assert chunks[..0] == [] && !over(RemainderAt(chunks, 0));
    var k := FramingOfPrefix(chunks, over);
    FramesWithinCap(Lines(Arrived(chunks)), over);
  }

  /** For a valid stream the same: its characters, split at newlines, when every
      chunk begins at a character. */
  lemma ValidStreamIsSplit(cs: seq<Scalar>, chunks: seq<Bytes>, over: Text -> bool)
    requires Joined(chunks) == Encode(cs) && AtCharacters(cs, chunks) && Bounded(chunks, over)
    requires forall line :: line in Lines(InUtf16(cs)) ==> !over(line)
    ensures ReceiveAll(chunks, over).Live?
    ensures DispatchedLines(ReceiveAll(chunks, over).frames) == NonBlank(Lines(InUtf16(cs)))
  {
    ValidChunksDecodeIff(cs, chunks);
    ChunksDecodeIff(chunks);
    DecodeEncode(cs);
    StreamIsSplit(chunks, over);
  }

  // ----- what the pieces and the frames are -----

  /** The pieces with a newline between each two. */
  function JoinLines(pieces: seq<Text>): Text
    requires pieces != []
  {
    if |pieces| == 1 then pieces[0] else pieces[0] + [0x0A] + JoinLines(pieces[1..])
  }

  ghost predicate NoNewline(pieces: seq<Text>) {
    forall i, j :: 0 <= i < |pieces| && 0 <= j < |pieces[i]| ==> pieces[i][j] != 0x0A
  }

  lemma JoinPrepend(c: Unit, pieces: seq<Text>)
    requires pieces != []
    ensures JoinLines(Prepend(c, pieces)) == [c] + JoinLines(pieces)
  {
    if |pieces| > 1 {
      var tail := [0x0A] + JoinLines(pieces[1..]);
      assert Prepend(c, pieces)[1..] == pieces[1..];
      assert [c] + pieces[0] + [0x0A] + JoinLines(pieces[1..]) == [c] + (pieces[0] + [0x0A] + JoinLines(pieces[1..]));
    }
  }

  /** The split is the one way to write a text as pieces without newlines that are
      joined by newlines: the pieces are such, and joined they are the text. */
  lemma {:induction false} SplitJoins(text: Text)
    ensures JoinLines(Split(text)) == text && NoNewline(Split(text))
  {
    if text != [] {
      var rest := Split(text[1..]);
      SplitJoins(text[1..]);
      assert text == [text[0]] + text[1..];
      if text[0] == NEWLINE {
        assert ([[]] + rest)[1..] == rest;
        assert [] + [0x0A] + JoinLines(rest) == [0x0A] + JoinLines(rest);
      } else {
        JoinPrepend(text[0], rest);
      }
    }
  }

  ghost predicate AllSpaces(line: Text) {
    forall i :: 0 <= i < |line| ==> Space(line[i])
  }

  lemma BlankIff(line: Text)
    ensures Blank(line) <==> AllSpaces(line)
  {
    var front, back := TrimRemoves(line);
    if Blank(line) {
      assert line == front + back;
    } else {
      assert line[|front|] == Trim(line)[0];
    }
  }

  /** One more line: nothing if it is all white space, and else one frame with it, which
      is dispatched if the line is within the cap and rejected if not. */
  lemma FramesNext(lines: seq<Text>, line: Text, over: Text -> bool)
    ensures Frames(lines + [line], over) ==
      Frames(lines, over) +
      if AllSpaces(line) then [] else if over(line) then [TooLong(line)] else [Dispatched(line)]
  {
    BlankIff(line);
    assert (lines + [line])[..|lines|] == lines;
    assert Frames(lines, over) + [] == Frames(lines, over);
  }
}
