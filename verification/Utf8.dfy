/** `Buffer.toString()`: bytes decoded as UTF-8 into UTF-16 code units, where each
    maximal part of an invalid or unfinished sequence becomes one U+FFFD. */
module Utf8 {
  import opened Sequences
  import opened Utf16

  type Byte = b: int | 0 <= b < 0x100
  type Bytes = seq<Byte>

  const REPLACEMENT: Unit := 0xFFFD

  /** The length that a first byte announces (section 3 of RFC 3629); 0 for a byte
      that starts nothing. */
  function Need(b: Byte): nat {
    if b < 0x80 then 1
    else if 0xC2 <= b <= 0xDF then 2
    else if 0xE0 <= b <= 0xEF then 3
    else if 0xF0 <= b <= 0xF4 then 4
    else 0
  }

  /** Whether `x` may be byte number `i` of a sequence that starts with `lead`. */
  predicate Continues(lead: Byte, i: nat, x: Byte) {
    if i != 1 then 0x80 <= x <= 0xBF
    else
      (if lead == 0xE0 then 0xA0 else if lead == 0xF0 then 0x90 else 0x80) <= x
      <= (if lead == 0xED then 0x9F else if lead == 0xF4 then 0x8F else 0xBF)
  }

  /** The length of the character, or of the part of one, at the front; its first
      `i` bytes are known to belong to it. */
  function Extent(s: Bytes, i: nat): (n: nat)
    requires 1 <= i <= |s|
    ensures i <= n <= |s|
    decreases |s| - i
  {
    if i < Need(s[0]) && i < |s| && Continues(s[0], i, s[i]) then Extent(s, i + 1) else i
  }

  function Front(s: Bytes): (n: nat)
    requires s != []
    ensures 1 <= n <= |s|
  {
    Extent(s, 1)
  }

  /** What a continuation byte carries. */
  function Low(b: Byte): int {
    var n: int := b;
    n - 0x80
  }

  /** The code point of a finished sequence. */
  function CodePoint(s: Bytes): int
    requires 1 <= |s| <= 4
  {
    var lead: int := s[0];
    if |s| == 1 then lead
    else if |s| == 2 then (lead - 0xC0) * 0x40 + Low(s[1])
    else if |s| == 3 then (lead - 0xE0) * 0x1000 + Low(s[1]) * 0x40 + Low(s[2])
    else (lead - 0xF0) * 0x40000 + Low(s[1]) * 0x1000 + Low(s[2]) * 0x40 + Low(s[3])
  }

  /** A code point as one unit or a surrogate pair. */
  function Units(cp: int): Text {
    if 0 <= cp < 0x10000 then [cp]
    else if 0x10000 <= cp < 0x110000 then [0xD800 + (cp - 0x10000) / 0x400, 0xDC00 + (cp - 0x10000) % 0x400]
    else [REPLACEMENT]
  }

  function Emit(part: Bytes): Text
    requires part != []
  {
    if |part| == Need(part[0]) then Units(CodePoint(part)) else [REPLACEMENT]
  }

  function Decode(s: Bytes): Text {
    if s == [] then [] else Emit(s[..Front(s)]) + Decode(s[Front(s)..])
  }

  // ----- cutting a stream -----

  /** `x` continues the unfinished sequence at the end of `s`. */
  predicate Open(s: Bytes, x: Byte)
    decreases s
  {
    if s == [] then false
    else if Front(s) < |s| then Open(s[Front(s)..], x)
    else |s| < Need(s[0]) && Continues(s[0], |s|, x)
  }

  /** A cut between `a` and `b` that separates no two bytes of one part. */
  predicate CleanCut(a: Bytes, b: Bytes) {
    b == [] || !Open(a, b[0])
  }

  lemma {:induction false} ExtentStops(a: Bytes, b: Bytes, i: nat)
    requires 1 <= i <= |a|
    requires Extent(a, i) < |a| || b == [] || |a| >= Need(a[0]) || !Continues(a[0], |a|, b[0])
    ensures Extent(a + b, i) == Extent(a, i)
    decreases |a| - i
  {
    if i < Need(a[0]) && i < |a| && Continues(a[0], i, a[i]) {
      ExtentStops(a, b, i + 1);
    }
  }

  lemma DecodeAfter(a: Bytes, b: Bytes)
    requires a != [] && Front(a + b) == Front(a)
    ensures Decode(a + b) == Emit(a[..Front(a)]) + Decode(a[Front(a)..] + b)
  {
    var n := Front(a);
    assert (a + b)[..n] == a[..n] && (a + b)[n..] == a[n..] + b;
  }

  /** At a clean cut the two sides can be decoded apart. */
  lemma {:induction false} DecodeApart(a: Bytes, b: Bytes)
    requires CleanCut(a, b)
    ensures Decode(a + b) == Decode(a) + Decode(b)
    decreases a
  {
    if a == [] {
      assert a + b == b;
    } else {
      var rest := a[Front(a)..];
      ExtentStops(a, b, 1);
      DecodeAfter(a, b);
      DecodeApart(rest, b);
      Associative(Emit(a[..Front(a)]), Decode(rest), Decode(b));
    }
  }

  /** How often U+FFFD occurs. */
  function Replacements(t: Text): nat {
    if t == [] then 0 else (if t[0] == REPLACEMENT then 1 else 0) + Replacements(t[1..])
  }

  lemma {:induction false} ReplacementsAppend(t: Text, u: Text)
    ensures Replacements(t + u) == Replacements(t) + Replacements(u)
  {
    if t == [] {
      assert t + u == u;
    } else {
      assert (t + u)[1..] == t[1..] + u;
      ReplacementsAppend(t[1..], u);
    }
  }

  lemma UnitsReplace(cp: int)
    ensures Replacements(Units(cp)) <= 1
  {
    var u := Units(cp);
    if |u| == 1 {
      assert u[1..] == [];
    } else {
      assert u[1..] == [u[1]] && u[1..][1..] == [] && Replacements(u[1..]) == 0;
    }
  }

  lemma EmitReplaces(part: Bytes)
    requires part != []
    ensures Replacements(Emit(part)) <= 1
  {
    if |part| == Need(part[0]) {
      UnitsReplace(CodePoint(part));
    } else {
      assert [REPLACEMENT][1..] == [];
    }
  }

  /** Bytes that only continue are replaced one by one. */
  lemma {:induction false} DecodeStray(b: Bytes, k: nat)
    requires k <= |b| && forall i :: 0 <= i < k ==> 0x80 <= b[i] <= 0xBF
    ensures Replacements(Decode(b)) == k + Replacements(Decode(b[k..]))
    decreases k
  {
    if k == 0 {
      assert b[0..] == b;
    } else {
      assert Front(b) == 1 && Emit(b[..1]) == [REPLACEMENT];
      DecodeStray(b[1..], k - 1);
      assert b[1..][k - 1..] == b[k..];
      ReplacementsAppend([REPLACEMENT], Decode(b[1..]));
      assert [REPLACEMENT][1..] == [];
    }
  }

  /** The part that an unfinished sequence grows into, and what it takes of `b`. */
  lemma {:induction false} ExtentGrows(a: Bytes, b: Bytes, i: nat)
    requires a != [] && |a| <= i <= |a| + |b| && |a| <= Need(a[0])
    ensures var n := Extent(a + b, i);
      n >= i && forall j :: i - |a| <= j < n - |a| ==> 0x80 <= b[j] <= 0xBF
    decreases |a| + |b| - i
  {
    var s := a + b;
    if i < Need(s[0]) && i < |s| && Continues(s[0], i, s[i]) {
      ExtentGrows(a, b, i + 1);
    }
  }

  lemma {:induction false} ExtentPasses(a: Bytes, b: Bytes, i: nat)
    requires 1 <= i <= |a| && Extent(a, i) == |a|
    ensures Extent(a + b, i) == Extent(a + b, |a|)
    decreases |a| - i
  {
    if i < |a| { ExtentPasses(a, b, i + 1); }
  }

  /** At any other cut the two sides give more replacements than the whole. */
  lemma {:induction false} DecodeCut(a: Bytes, b: Bytes)
    requires !CleanCut(a, b)
    ensures Replacements(Decode(a)) + Replacements(Decode(b)) > Replacements(Decode(a + b))
    decreases a
  {
    var n := Front(a);
    if n < |a| {
      ExtentStops(a, b, 1);
      DecodeAfter(a, b);
      DecodeCut(a[n..], b);
      ReplacementsAppend(Emit(a[..n]), Decode(a[n..]));
      ReplacementsAppend(Emit(a[..n]), Decode(a[n..] + b));
    } else {
      CutPart(a, b);
    }
  }

  lemma DecodeUnfinished(a: Bytes)
    requires a != [] && Front(a) == |a| < Need(a[0])
    ensures Replacements(Decode(a)) == 1
  {
    assert a[..|a|] == a && a[|a|..] == [];
    assert Decode(a) == [REPLACEMENT] + [] == [REPLACEMENT] && [REPLACEMENT][1..] == [];
  }

  /** The part grown across the cut is at least one byte longer, and all that it
      takes of `b` only continues. */
  lemma CutPartGrows(a: Bytes, b: Bytes) returns (k: nat)
    requires a != [] && b != [] && Front(a) == |a| < Need(a[0]) && Continues(a[0], |a|, b[0])
    ensures 1 <= k <= |b| && Front(a + b) == |a| + k
    ensures forall j :: 0 <= j < k ==> 0x80 <= b[j] <= 0xBF
  {
    ExtentPasses(a, b, 1);
    ExtentGrows(a, b, |a|);
    k := Front(a + b) - |a|;
    assert (a + b)[|a|] == b[0];
  }

  lemma DecodeFrom(s: Bytes, m: nat, rest: Bytes)
    requires s != [] && m == Front(s) && rest == s[m..]
    ensures Decode(s) == Emit(s[..m]) + Decode(rest)
  {
  }

  lemma CutPart(a: Bytes, b: Bytes)
    requires a != [] && b != [] && Front(a) == |a| < Need(a[0]) && Continues(a[0], |a|, b[0])
    ensures Replacements(Decode(a)) + Replacements(Decode(b)) > Replacements(Decode(a + b))
  {
    var k := CutPartGrows(a, b);
    var m := |a| + k;
    var part := (a + b)[..m];
    DecodeFrom(a + b, m, b[k..]);
    DecodeUnfinished(a);
    DecodeStray(b, k);
    ReplacementsAppend(Emit(part), Decode(b[k..]));
    EmitReplaces(part);
  }

  /** Two sides decode apart exactly when the cut is clean. */
  lemma DecodeApartIff(a: Bytes, b: Bytes)
    ensures Decode(a + b) == Decode(a) + Decode(b) <==> CleanCut(a, b)
  {
    if CleanCut(a, b) {
      DecodeApart(a, b);
    } else {
      DecodeCut(a, b);
      ReplacementsAppend(Decode(a), Decode(b));
    }
  }

  // ----- many chunks -----

  function Joined(chunks: seq<Bytes>): Bytes {
    if chunks == [] then [] else Joined(chunks[..|chunks| - 1]) + chunks[|chunks| - 1]
  }

  /** The text that arrives when every chunk is decoded by itself. */
  function Arrived(chunks: seq<Bytes>): Text {
    if chunks == [] then [] else Arrived(chunks[..|chunks| - 1]) + Decode(chunks[|chunks| - 1])
  }

  /** Every cut of the stream is clean. */
  predicate CleanCuts(chunks: seq<Bytes>) {
    chunks == [] ||
    (CleanCuts(chunks[..|chunks| - 1]) && CleanCut(Joined(chunks[..|chunks| - 1]), chunks[|chunks| - 1]))
  }

  lemma {:induction false} CutsReplace(chunks: seq<Bytes>)
    ensures CleanCuts(chunks) ==> Arrived(chunks) == Decode(Joined(chunks))
    ensures Replacements(Arrived(chunks)) >= Replacements(Decode(Joined(chunks)))
    ensures !CleanCuts(chunks) ==> Replacements(Arrived(chunks)) > Replacements(Decode(Joined(chunks)))
  {
    if chunks != [] {
      var init, last := chunks[..|chunks| - 1], chunks[|chunks| - 1];
      CutsReplace(init);
      ReplacementsAppend(Arrived(init), Decode(last));
      ReplacementsAppend(Decode(Joined(init)), Decode(last));
      if CleanCut(Joined(init), last) { DecodeApart(Joined(init), last); } else { DecodeCut(Joined(init), last); }
    }
  }

  /** For every byte stream: decoding chunk by chunk gives the text of the whole
      exactly when no cut separates two bytes of one part. */
  lemma ChunksDecodeIff(chunks: seq<Bytes>)
    ensures Arrived(chunks) == Decode(Joined(chunks)) <==> CleanCuts(chunks)
  {
    CutsReplace(chunks);
  }

  // ----- valid streams -----

  /** A Unicode scalar value. */
  type Scalar = c: int | 0 <= c < 0xD800 || 0xE000 <= c < 0x110000

  function EncodeOne(c: Scalar): (s: Bytes)
    ensures 1 <= |s| <= 4
  {
    if c < 0x80 then [c]
    else if c < 0x800 then [0xC0 + c / 0x40, 0x80 + c % 0x40]
    else if c < 0x10000 then [0xE0 + c / 0x1000, 0x80 + c / 0x40 % 0x40, 0x80 + c % 0x40]
    else [0xF0 + c / 0x40000, 0x80 + c / 0x1000 % 0x40, 0x80 + c / 0x40 % 0x40, 0x80 + c % 0x40]
  }

  function Encode(cs: seq<Scalar>): Bytes {
    if cs == [] then [] else EncodeOne(cs[0]) + Encode(cs[1..])
  }

  function InUtf16(cs: seq<Scalar>): Text {
    if cs == [] then [] else Units(cs[0]) + InUtf16(cs[1..])
  }

  lemma Digits(c: int)
    requires c >= 0
    ensures c == c / 0x40 * 0x40 + c % 0x40
    ensures c / 0x40 == c / 0x1000 * 0x40 + c / 0x40 % 0x40
    ensures c / 0x1000 == c / 0x40000 * 0x40 + c / 0x1000 % 0x40
  {
  }

  lemma EncodedPoint(c: Scalar)
    ensures Need(EncodeOne(c)[0]) == |EncodeOne(c)| && CodePoint(EncodeOne(c)) == c
  {
    Digits(c);
  }

  lemma EncodedContinues(c: Scalar, i: nat)
    requires 1 <= i < |EncodeOne(c)|
    ensures Continues(EncodeOne(c)[0], i, EncodeOne(c)[i])
  {
    Digits(c);
  }

  lemma {:induction false} EncodedExtent(c: Scalar, rest: Bytes, i: nat)
    requires 1 <= i <= |EncodeOne(c)|
    ensures Extent(EncodeOne(c) + rest, i) == |EncodeOne(c)|
    decreases |EncodeOne(c)| - i
  {
    EncodedPoint(c);
    if i < |EncodeOne(c)| {
      EncodedContinues(c, i);
      EncodedExtent(c, rest, i + 1);
    }
  }

  /** A valid stream decodes to its characters. */
  lemma {:induction false} DecodeEncode(cs: seq<Scalar>)
    ensures Decode(Encode(cs)) == InUtf16(cs)
  {
    if cs != [] {
      var s, one := Encode(cs), EncodeOne(cs[0]);
      EncodedExtent(cs[0], Encode(cs[1..]), 1);
      EncodedPoint(cs[0]);
      assert s[..|one|] == one && s[|one|..] == Encode(cs[1..]);
      DecodeEncode(cs[1..]);
    }
  }

  /** `k` is where a character begins, or the end. */
  ghost predicate Boundary(cs: seq<Scalar>, k: nat) {
    exists j: nat :: j <= |cs| && k == |Encode(cs[..j])|
  }

  /** In a valid stream a cut is clean exactly at a character boundary. */
  lemma {:induction false} CleanIsBoundary(cs: seq<Scalar>, k: nat)
    requires k < |Encode(cs)|
    ensures Open(Encode(cs)[..k], Encode(cs)[k]) <==> !Boundary(cs, k)
  {
    var s, one := Encode(cs), EncodeOne(cs[0]);
    EncodedPoint(cs[0]);
    if k == 0 {
      assert cs[..0] == [];
      assert Boundary(cs, 0) by { assert |Encode(cs[..0])| == 0; }
    } else if k < |one| {
      assert s[..k] == one[..k] && s[k] == one[k];
      EncodedContinues(cs[0], k);
      PrefixExtent(cs[0], k, 1);
      NoBoundaryInside(cs, k);
    } else {
      EncodedExtentAt(cs, k);
      var t, l := Encode(cs[1..]), k - |one|;
      assert s[..k][|one|..] == t[..l] && s[k] == t[l];
      CleanIsBoundary(cs[1..], l);
      BoundaryShift(cs, l);
    }
  }

  lemma {:induction false} PrefixExtent(c: Scalar, k: nat, i: nat)
    requires 1 <= i <= k < |EncodeOne(c)|
    ensures Extent(EncodeOne(c)[..k], i) == k
    decreases k - i
  {
    EncodedPoint(c);
    if i < k {
      EncodedContinues(c, i);
      PrefixExtent(c, k, i + 1);
    }
  }

  lemma TakePast<T>(a: seq<T>, b: seq<T>, k: nat)
    requires |a| <= k <= |a| + |b|
    ensures (a + b)[..k] == a + b[..k - |a|]
  {
  }

  lemma EncodedExtentAt(cs: seq<Scalar>, k: nat)
    requires cs != [] && |EncodeOne(cs[0])| <= k <= |Encode(cs)|
    ensures Front(Encode(cs)[..k]) == |EncodeOne(cs[0])|
  {
    var one, tail := EncodeOne(cs[0]), Encode(cs[1..]);
    TakePast(one, tail, k);
    EncodedExtent(cs[0], tail[..k - |one|], 1);
  }

  lemma NoBoundaryInside(cs: seq<Scalar>, k: nat)
    requires cs != [] && 0 < k < |EncodeOne(cs[0])|
    ensures !Boundary(cs, k)
  {
    forall j: nat | j <= |cs| ensures k != |Encode(cs[..j])| {
      if j > 0 { assert cs[..j][0] == cs[0]; }
    }
  }

  lemma BoundaryShift(cs: seq<Scalar>, l: nat)
    requires cs != []
    ensures Boundary(cs, |EncodeOne(cs[0])| + l) <==> Boundary(cs[1..], l)
  {
    forall j: nat | 0 < j <= |cs| ensures |Encode(cs[..j])| == |EncodeOne(cs[0])| + |Encode(cs[1..][..j - 1])| {
      assert cs[..j][1..] == cs[1..][..j - 1];
    }
    if Boundary(cs[1..], l) {
      var j: nat :| j <= |cs[1..]| && l == |Encode(cs[1..][..j])|;
      assert |Encode(cs[..j + 1])| == |EncodeOne(cs[0])| + l;
    }
    if Boundary(cs, |EncodeOne(cs[0])| + l) {
      var j: nat :| j <= |cs| && |EncodeOne(cs[0])| + l == |Encode(cs[..j])|;
      assert j > 0;
      assert l == |Encode(cs[1..][..j - 1])|;
    }
  }

  /** Every chunk but an empty one begins at a character. */
  ghost predicate AtCharacters(cs: seq<Scalar>, chunks: seq<Bytes>) {
    forall k :: 0 <= k < |chunks| && chunks[k] != [] ==> Boundary(cs, |Joined(chunks[..k])|)
  }

  lemma {:induction false} JoinedPrefix(chunks: seq<Bytes>, k: nat)
    requires k <= |chunks|
    ensures Joined(chunks[..k]) <= Joined(chunks)
    ensures k < |chunks| ==> Joined(chunks[..k]) + chunks[k] <= Joined(chunks)
  {
    if k == |chunks| {
      assert chunks[..k] == chunks;
    } else {
      var init := chunks[..|chunks| - 1];
      JoinedPrefix(init, k);
      assert init[..k] == chunks[..k];
    }
  }

  lemma {:induction false} CleanCutsAt(chunks: seq<Bytes>)
    ensures CleanCuts(chunks) <==> forall k :: 0 <= k < |chunks| ==> CleanAt(chunks, k)
  {
    if chunks != [] {
      var init := chunks[..|chunks| - 1];
      CleanCutsAt(init);
      forall k | 0 <= k < |init| ensures CleanAt(init, k) <==> CleanAt(chunks, k) {
        assert init[..k] == chunks[..k];
      }
      assert CleanCuts(chunks) <==> CleanCuts(init) && CleanAt(chunks, |init|);
    }
  }

  predicate CleanAt(chunks: seq<Bytes>, k: nat)
    requires k < |chunks|
  {
    CleanCut(Joined(chunks[..k]), chunks[k])
  }

  /** For every valid UTF-8 stream: decoding chunk by chunk gives its characters
      exactly when every cut is at a character boundary. */
  lemma ValidChunksDecodeIff(cs: seq<Scalar>, chunks: seq<Bytes>)
    requires Joined(chunks) == Encode(cs)
    ensures Arrived(chunks) == InUtf16(cs) <==> AtCharacters(cs, chunks)
  {
    DecodeEncode(cs);
    ChunksDecodeIff(chunks);
    CleanCutsAt(chunks);
    forall k | 0 <= k < |chunks|
      ensures CleanAt(chunks, k) <==> chunks[k] == [] || Boundary(cs, |Joined(chunks[..k])|)
    {
      var a := Joined(chunks[..k]);
      JoinedPrefix(chunks, k);
      if chunks[k] != [] {
        assert (a + chunks[k])[|a|] == chunks[k][0];
        assert Encode(cs)[..|a|] == a && Encode(cs)[|a|] == chunks[k][0];
        CleanIsBoundary(cs, |a|);
      }
    }
  }

  // ----- the parts of any stream -----

  /** The bytes begin the encoding of some character. */
  ghost predicate BeginsOne(part: Bytes) {
    exists c: Scalar :: part <= EncodeOne(c)
  }

  /** A first byte and bytes that may follow it. */
  ghost predicate Linked(part: Bytes) {
    part != [] && |part| <= Need(part[0]) && forall i :: 1 <= i < |part| ==> Continues(part[0], i, part[i])
  }

  lemma TwoBytes(a: int, b: int)
    requires 0xC2 <= a <= 0xDF && 0x80 <= b <= 0xBF
    ensures var c := (a - 0xC0) * 0x40 + (b - 0x80);
      0x80 <= c < 0x800 && c / 0x40 == a - 0xC0 && c % 0x40 == b - 0x80
  {
  }

  lemma ThreeBytes(a: int, b: int, d: int)
    requires 0xE0 <= a <= 0xEF && 0x80 <= b <= 0xBF && 0x80 <= d <= 0xBF
    requires (a == 0xE0 ==> b >= 0xA0) && (a == 0xED ==> b <= 0x9F)
    ensures var c := (a - 0xE0) * 0x1000 + (b - 0x80) * 0x40 + (d - 0x80);
      && 0x800 <= c < 0x10000 && !(0xD800 <= c < 0xE000)
      && c / 0x1000 == a - 0xE0 && c / 0x40 % 0x40 == b - 0x80 && c % 0x40 == d - 0x80
  {
    var c := (a - 0xE0) * 0x1000 + (b - 0x80) * 0x40 + (d - 0x80);
    assert c / 0x40 == (a - 0xE0) * 0x40 + (b - 0x80);
  }

  lemma FourBytes(a: int, b: int, d: int, e: int)
    requires 0xF0 <= a <= 0xF4 && 0x80 <= b <= 0xBF && 0x80 <= d <= 0xBF && 0x80 <= e <= 0xBF
    requires (a == 0xF0 ==> b >= 0x90) && (a == 0xF4 ==> b <= 0x8F)
    ensures var c := (a - 0xF0) * 0x40000 + (b - 0x80) * 0x1000 + (d - 0x80) * 0x40 + (e - 0x80);
      && 0x10000 <= c < 0x110000
      && c / 0x40000 == a - 0xF0 && c / 0x1000 % 0x40 == b - 0x80 && c / 0x40 % 0x40 == d - 0x80 && c % 0x40 == e - 0x80
  {
    var c := (a - 0xF0) * 0x40000 + (b - 0x80) * 0x1000 + (d - 0x80) * 0x40 + (e - 0x80);
    assert c / 0x40 == (a - 0xF0) * 0x1000 + (b - 0x80) * 0x40 + (d - 0x80);
    assert c / 0x1000 == (a - 0xF0) * 0x40 + (b - 0x80);
  }

  lemma FinishedTwo(a: Byte, b: Byte) returns (c: Scalar)
    requires Need(a) == 2 && Continues(a, 1, b)
    ensures c == CodePoint([a, b]) && EncodeOne(c) == [a, b]
  {
    TwoBytes(a, b);
    c := CodePoint([a, b]);
  }

  lemma FinishedThree(a: Byte, b: Byte, d: Byte) returns (c: Scalar)
    requires Need(a) == 3 && Continues(a, 1, b) && Continues(a, 2, d)
    ensures c == CodePoint([a, b, d]) && EncodeOne(c) == [a, b, d]
  {
    ThreeBytes(a, b, d);
    c := CodePoint([a, b, d]);
  }

  lemma FinishedFour(a: Byte, b: Byte, d: Byte, e: Byte) returns (c: Scalar)
    requires Need(a) == 4 && Continues(a, 1, b) && Continues(a, 2, d) && Continues(a, 3, e)
    ensures c == CodePoint([a, b, d, e]) && EncodeOne(c) == [a, b, d, e]
  {
    FourBytes(a, b, d, e);
    c := CodePoint([a, b, d, e]);
  }

  /** A finished sequence is the encoding of its code point: none is too long, names a
      surrogate or lies beyond the last character. */
  lemma FinishedIsEncoded(part: Bytes) returns (c: Scalar)
    requires Linked(part) && |part| == Need(part[0])
    ensures c == CodePoint(part) && EncodeOne(c) == part
  {
    if |part| == 1 {
      c := part[0];
      assert part == [part[0]];
    } else if |part| == 2 {
      c := FinishedTwo(part[0], part[1]);
      assert part == [part[0], part[1]];
    } else if |part| == 3 {
      c := FinishedThree(part[0], part[1], part[2]);
      assert part == [part[0], part[1], part[2]];
    } else {
      c := FinishedFour(part[0], part[1], part[2], part[3]);
      assert part == [part[0], part[1], part[2], part[3]];
    }
  }

  /** A byte that may come next. */
  function NextByte(lead: Byte, i: nat): (x: Byte)
    ensures i >= 1 ==> Continues(lead, i, x)
  {
    if i != 1 then 0x80 else if lead == 0xE0 then 0xA0 else if lead == 0xF0 then 0x90 else 0x80
  }

  lemma {:induction false} LinkedBegins(part: Bytes)
    requires Linked(part)
    ensures BeginsOne(part)
    decreases Need(part[0]) - |part|
  {
    if |part| == Need(part[0]) {
      var c := FinishedIsEncoded(part);
      assert part <= EncodeOne(c);
    } else {
      var more := part + [NextByte(part[0], |part|)];
      LinkedBegins(more);
      var c: Scalar :| more <= EncodeOne(c);
      assert part <= EncodeOne(c);
    }
  }

  lemma BeginsLinked(part: Bytes)
    requires part != [] && BeginsOne(part)
    ensures Linked(part)
  {
    var c: Scalar :| part <= EncodeOne(c);
    EncodedPoint(c);
    forall i | 1 <= i < |part| ensures Continues(part[0], i, part[i]) {
      EncodedContinues(c, i);
      assert part[0] == EncodeOne(c)[0] && part[i] == EncodeOne(c)[i];
    }
  }

  lemma {:induction false} ExtentLinked(s: Bytes, i: nat)
    requires 1 <= i <= |s| && Linked(s[..i])
    ensures Linked(s[..Extent(s, i)])
    ensures Extent(s, i) < |s| ==> !Linked(s[..Extent(s, i) + 1])
    decreases |s| - i
  {
    if i < |s| { LinkedNext(s, i); }
    if i < Need(s[0]) && i < |s| && Continues(s[0], i, s[i]) { ExtentLinked(s, i + 1); }
  }

  lemma LinkedNext(s: Bytes, i: nat)
    requires 1 <= i < |s|
    ensures Linked(s[..i + 1]) <==> Linked(s[..i]) && i < Need(s[0]) && Continues(s[0], i, s[i])
  {
    var part, more := s[..i], s[..i + 1];
    assert more[i] == s[i] && forall j :: 0 <= j < i ==> more[j] == part[j];
  }

  /** For every stream: the part at its front is the longest beginning of it that begins
      the encoding of a character, or one byte that begins none; it gives this character
      if it is the whole encoding, and one U+FFFD if not. */
  lemma FrontIsLongest(s: Bytes)
    requires s != []
    ensures var n := Front(s);
      && (BeginsOne(s[..1]) ==> BeginsOne(s[..n]))
      && (BeginsOne(s[..1]) && n < |s| ==> !BeginsOne(s[..n + 1]))
      && (!BeginsOne(s[..1]) ==> n == 1)
      && (forall c: Scalar :: EncodeOne(c) == s[..n] ==> Emit(s[..n]) == Units(c))
      && ((forall c: Scalar :: EncodeOne(c) != s[..n]) ==> Emit(s[..n]) == [0xFFFD])
  {
    var n := Front(s);
    if Need(s[0]) >= 1 {
      assert Linked(s[..1]);
      LinkedBegins(s[..1]);
      ExtentLinked(s, 1);
      LinkedBegins(s[..n]);
      if n < |s| && BeginsOne(s[..n + 1]) { BeginsLinked(s[..n + 1]); }
      if n == Need(s[0]) {
        var c := FinishedIsEncoded(s[..n]);
      }
    } else if BeginsOne(s[..1]) {
      BeginsLinked(s[..1]);
    }
    forall c: Scalar | EncodeOne(c) == s[..n] ensures Emit(s[..n]) == Units(c) {
      EncodedPoint(c);
    }
  }
}
