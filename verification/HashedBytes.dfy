/** The bytes that `hashParams` hashes: the UTF-8 form of its input, in which a
    lone surrogate of a method name becomes U+FFFD. */
module HashedBytes {
  import opened CanonicalJson
  import opened Sequences
  import opened Utf16
  import Utf8

  function PairPoint(high: Unit, low: Unit): Utf8.Scalar
    requires High(high) && Low(low)
  {
    0x10000 + (high - 0xD800) * 0x400 + (low - 0xDC00)
  }

  /** A unit that is no surrogate, and U+FFFD for one that is. */
  function Plainly(u: Unit): Unit {
    if High(u) || Low(u) then Utf8.REPLACEMENT else u
  }

  /** The characters that a text is encoded as. */
  function Scalars(t: Text): seq<Utf8.Scalar> {
    if t == [] then []
    else if StartsWithPair(t) then [PairPoint(t[0], t[1])] + Scalars(t[2..])
    else [Plainly(t[0])] + Scalars(t[1..])
  }

  /** `Buffer.from(t, 'utf8')`. */
  function ToUtf8(t: Text): Utf8.Bytes {
    Utf8.Encode(Scalars(t))
  }

  /** `t.toWellFormed()`: every lone surrogate replaced. */
  function Scrub(t: Text): Text {
    if t == [] then []
    else if StartsWithPair(t) then [t[0], t[1]] + Scrub(t[2..])
    else [Plainly(t[0])] + Scrub(t[1..])
  }

  lemma PairUnits(high: Unit, low: Unit)
    requires High(high) && Low(low)
    ensures Utf8.Units(PairPoint(high, low)) == [high, low]
  {
    var a, b := high - 0xD800, low - 0xDC00;
    assert (a * 0x400 + b) / 0x400 == a && (a * 0x400 + b) % 0x400 == b;
  }

  lemma {:induction false} ScalarsInUtf16(t: Text)
    ensures Utf8.InUtf16(Scalars(t)) == Scrub(t)
  {
    if t != [] {
      if StartsWithPair(t) {
        PairUnits(t[0], t[1]);
        ScalarsInUtf16(t[2..]);
      } else {
        ScalarsInUtf16(t[1..]);
      }
    }
  }

  lemma {:induction false} ScalarsOfScrub(t: Text)
    ensures Scalars(Scrub(t)) == Scalars(t)
  {
    if t != [] {
      var s := Scrub(t);
      if StartsWithPair(t) {
        assert s[2..] == Scrub(t[2..]);
        ScalarsOfScrub(t[2..]);
      } else {
        assert s[1..] == Scrub(t[1..]);
        ScalarsOfScrub(t[1..]);
      }
    }
  }

  /** Texts have the same bytes exactly when they are the same up to lone
      surrogates. */
  lemma BytesDetermine(t: Text, u: Text)
    ensures ToUtf8(t) == ToUtf8(u) <==> Scrub(t) == Scrub(u)
  {
    Utf8.DecodeEncode(Scalars(t));
    Utf8.DecodeEncode(Scalars(u));
    ScalarsInUtf16(t);
    ScalarsInUtf16(u);
    ScalarsOfScrub(t);
    ScalarsOfScrub(u);
  }

  // ----- texts without lone surrogates -----

  predicate Paired(t: Text) {
    || t == []
    || (if StartsWithPair(t) then Paired(t[2..]) else !High(t[0]) && !Low(t[0]) && Paired(t[1..]))
  }

  lemma {:induction false} PairedIffKept(t: Text)
    ensures Paired(t) <==> Scrub(t) == t
  {
    if t != [] {
      var s := Scrub(t);
      if StartsWithPair(t) {
        assert s[2..] == Scrub(t[2..]) && t == [t[0], t[1]] + t[2..];
        PairedIffKept(t[2..]);
      } else {
        assert s[1..] == Scrub(t[1..]) && t == [t[0]] + t[1..];
        PairedIffKept(t[1..]);
      }
    }
  }

  lemma {:induction false} PairedConcat(a: Text, b: Text)
    requires Paired(a) && Paired(b)
    ensures Paired(a + b)
    decreases a
  {
    if a == [] {
      assert a + b == b;
    } else if StartsWithPair(a) {
      assert (a + b)[2..] == a[2..] + b;
      PairedConcat(a[2..], b);
    } else {
      assert (a + b)[1..] == a[1..] + b;
      PairedConcat(a[1..], b);
    }
  }

  lemma {:induction false} LowUnitsPaired(t: Text)
    requires forall i :: 0 <= i < |t| ==> t[i] < 0xD800
    ensures Paired(t)
  {
    if t != [] { LowUnitsPaired(t[1..]); }
  }

  lemma UnitPaired(u: Unit)
    ensures Paired(EscapeUnit(u))
  {
    if |EscapeUnit(u)| > 1 {
      LowUnitsPaired(EscapeUnit(u));
    } else {
      assert EscapeUnit(u)[1..] == [];
    }
  }

  lemma {:induction false} EscapePaired(s: Text)
    ensures Paired(Escape(s))
  {
    if s != [] {
      if StartsWithPair(s) { assert Block(s)[2..] == []; } else { UnitPaired(s[0]); }
      EscapePaired(s[Step(s)..]);
      PairedConcat(Block(s), Escape(s[Step(s)..]));
    }
  }

  lemma Between(a: Unit, t: Text, b: Unit)
    requires a < 0xD800 && b < 0xD800 && Paired(t)
    ensures Paired([a] + t + [b])
  {
    LowUnitsPaired([a]);
    LowUnitsPaired([b]);
    PairedConcat([a], t);
    PairedConcat([a] + t, [b]);
  }

  lemma Around(t: Text, c: Unit, u: Text)
    requires c < 0xD800 && Paired(t) && Paired(u)
    ensures Paired(t + [c] + u)
  {
    LowUnitsPaired([c]);
    PairedConcat(t, [c]);
    PairedConcat(t + [c], u);
  }

  lemma QuotedPaired(s: Text)
    ensures Paired(Quoted(s))
  {
    EscapePaired(s);
    Between(QUOTE, Escape(s), QUOTE);
  }

  /** A canonical text has no lone surrogate, whatever the strings in it. */
  lemma {:induction false} CanonicalPaired(v: Json)
    ensures Paired(Canonicalize(v))
    decreases v, 0
  {
    match v
    case Str(s) => QuotedPaired(s);
    case Arr(items) =>
      ItemsPaired(items);
      Between(OPEN_ARRAY, JoinItems(items), CLOSE_ARRAY);
    case Obj(ms) =>
      PairsPaired(SortedKeys(ms), ms);
      Between(OPEN_OBJECT, JoinPairs(SortedKeys(ms), ms), CLOSE_OBJECT);
    case _ => LowUnitsPaired(Canonicalize(v));
  }

  lemma {:induction false} ItemsPaired(items: seq<Json>)
    ensures Paired(JoinItems(items))
    decreases items, 0
  {
    if items != [] {
      CanonicalPaired(items[0]);
      if |items| > 1 {
        ItemsPaired(items[1..]);
        Around(Canonicalize(items[0]), COMMA, JoinItems(items[1..]));
      }
    }
  }

  lemma {:induction false} PairsPaired(keys: seq<Text>, ms: seq<Member>)
    requires forall k :: k in keys ==> k in Keys(ms)
    ensures Paired(JoinPairs(keys, ms))
    decreases ms, 0, |keys|
  {
    if keys != [] {
      var value := Get(ms, keys[0]);
      QuotedPaired(keys[0]);
      CanonicalPaired(value);
      Around(Quoted(keys[0]), COLON, Canonicalize(value));
      if |keys| > 1 {
        PairsPaired(keys[1..], ms);
        Around(Quoted(keys[0]) + [COLON] + Canonicalize(value), COMMA, JoinPairs(keys[1..], ms));
      }
    }
  }

  // ----- what the bytes determine -----

  lemma {:induction false} ScrubAppend(a: Text, b: Text)
    requires b == [] || !Low(b[0])
    ensures Scrub(a + b) == Scrub(a) + Scrub(b)
  {
    if a == [] {
      assert a + b == b;
    } else if StartsWithPair(a) {
      assert (a + b)[2..] == a[2..] + b;
      ScrubAppend(a[2..], b);
    } else {
      assert (a + b)[1..] == a[1..] + b;
      ScrubAppend(a[1..], b);
    }
  }

  /** Only the name is scrubbed. */
  lemma ScrubInput(name: Text, params: Json)
    ensures Scrub(HashInput(name, params)) == HashInput(Scrub(name), params)
  {
    var text := Canonicalize(OrEmpty(params));
    CanonicalPaired(OrEmpty(params));
    PairedConcat([COLON], text) by { LowUnitsPaired([COLON]); }
    PairedIffKept([COLON] + text);
    Associative(name, [COLON], text);
    Associative(Scrub(name), [COLON], text);
    ScrubAppend(name, [COLON] + text);
  }

  /** The bytes that are hashed determine the params up to key order, and the
      method name up to lone surrogates, and conversely. */
  lemma HashedBytesDetermine(m: Text, n: Text, p: Json, q: Json)
    requires WellFormed(p) && WellFormed(q)
    ensures ToUtf8(HashInput(m, p)) == ToUtf8(HashInput(n, q)) <==>
      Scrub(m) == Scrub(n) && Same(OrEmpty(p), OrEmpty(q))
  {
    BytesDetermine(HashInput(m, p), HashInput(n, q));
    ScrubInput(m, p);
    ScrubInput(n, q);
    HashInputDetermines(Scrub(m), Scrub(n), p, q);
  }

  /** For names without lone surrogates, the name itself. */
  lemma PairedNamesDetermine(m: Text, n: Text, p: Json, q: Json)
    requires WellFormed(p) && WellFormed(q) && Paired(m) && Paired(n)
    ensures ToUtf8(HashInput(m, p)) == ToUtf8(HashInput(n, q)) <==> m == n && Same(OrEmpty(p), OrEmpty(q))
  {
    HashedBytesDetermine(m, n, p, q);
    PairedIffKept(m);
    PairedIffKept(n);
  }

  /** Two method names, each a lone surrogate: different texts with the same bytes. */
  lemma LoneSurrogatesCollide(params: Json)
    ensures HashInput([0xD800], params) != HashInput([0xDC00], params)
    ensures ToUtf8(HashInput([0xD800], params)) == ToUtf8(HashInput([0xDC00], params))
  {
    var a: Text, b: Text := [0xD800], [0xDC00];
    assert a[1..] == [] && b[1..] == [];
    assert Scrub(a) == [Utf8.REPLACEMENT] + [] == Scrub(b);
    BytesDetermine(HashInput(a, params), HashInput(b, params));
    ScrubInput(a, params);
    ScrubInput(b, params);
  }
}
