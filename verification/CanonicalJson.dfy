/** The text that approvals and signatures bind to: `canonicalizeJSON` and the
    input of `hashParams`. An object is its own enumerable properties in
    insertion order; a string is a sequence of UTF-16 code units, printed as
    `JSON.stringify` prints it. */
module CanonicalJson {
  import opened Sequences
  import opened Utf16

  const QUOTE: Unit := 0x22
  const COMMA: Unit := 0x2C
  const COLON: Unit := 0x3A
  const OPEN_ARRAY: Unit := 0x5B
  const BACKSLASH: Unit := 0x5C
  const CLOSE_ARRAY: Unit := 0x5D
  const SMALL_U: Unit := 0x75
  const OPEN_OBJECT: Unit := 0x7B
  const CLOSE_OBJECT: Unit := 0x7D
  const NULL_TEXT: Text := [0x6E, 0x75, 0x6C, 0x6C]
  const TRUE_TEXT: Text := [0x74, 0x72, 0x75, 0x65]
  const FALSE_TEXT: Text := [0x66, 0x61, 0x6C, 0x73, 0x65]
  const ZERO_TEXT: Text := [0x30]

  /** Digits, signs, the point and the exponent mark (section 6 of RFC 8259). */
  predicate NumberUnit(u: Unit) {
    0x30 <= u <= 0x39 || u in {0x2B, 0x2D, 0x2E, 0x45, 0x65}
  }

  function DigitRun(t: Text): (n: nat)
    ensures n <= |t|
  {
    if t == [] || !(0x30 <= t[0] <= 0x39) then 0 else 1 + DigitRun(t[1..])
  }

  /** `frac` and `exp` of the number grammar, each of which may be absent. */
  predicate AfterInteger(t: Text) {
    if t != [] && t[0] == 0x2E then DigitRun(t[1..]) > 0 && AfterFraction(t[1 + DigitRun(t[1..])..])
    else AfterFraction(t)
  }

  predicate AfterFraction(t: Text) {
    || t == []
    || (&& t[0] in {0x45, 0x65}
        && var digits := if |t| > 1 && t[1] in {0x2B, 0x2D} then t[2..] else t[1..];
           0 < DigitRun(digits) == |digits|)
  }

  /** A number as RFC 8259 writes it: no leading zeros, no leading plus. */
  predicate IsLiteral(t: Text) {
    && t != [] && (0x30 <= t[0] <= 0x39 || t[0] == 0x2D) && (forall i :: 0 <= i < |t| ==> NumberUnit(t[i]))
    && var integer := if t[0] == 0x2D then t[1..] else t;
       && DigitRun(integer) > 0 && (integer[0] == 0x30 ==> DigitRun(integer) == 1)
       && AfterInteger(integer[DigitRun(integer)..])
  }

  type Literal = t: Text | IsLiteral(t) witness [0x30]

  /** A number that `JSON.parse` can yield. A finite one is named by the shortest
      decimal text ECMAScript prints for it; negative zero and the infinities
      (an overflowing literal such as 1e999) have no text of their own. */
  datatype Number = Finite(literal: Literal) | NegativeZero | Infinite(negative: bool)

  datatype Json =
    | Null
    | Bool(b: bool)
    | Num(n: Number)
    | Str(s: Text)
    | Arr(items: seq<Json>)
    | Obj(members: seq<Member>)

  datatype Member = Member(key: Text, value: Json)

  function Keys(ms: seq<Member>): (ks: seq<Text>)
    ensures |ks| == |ms| && forall i :: 0 <= i < |ms| ==> ks[i] == ms[i].key
  {
    seq(|ms|, i requires 0 <= i < |ms| => ms[i].key)
  }

  /** Property names of one object are distinct, at every depth. */
  ghost predicate WellFormed(v: Json) {
    match v
    case Arr(items) => forall x :: x in items ==> WellFormed(x)
    case Obj(ms) => Distinct(Keys(ms)) && forall m :: m in ms ==> WellFormed(m.value)
    case _ => true
  }

  /** `obj[k]` for a key the object has. */
  function Get(ms: seq<Member>, k: Text): (v: Json)
    requires k in Keys(ms)
    ensures Member(k, v) in ms
  {
    if ms[0].key == k then ms[0].value
    else
      assert Keys(ms) == [ms[0].key] + Keys(ms[1..]);
      Get(ms[1..], k)
  }

  // ----- JSON.stringify on strings -----

  predicate High(u: Unit) { 0xD800 <= u <= 0xDBFF }
  predicate Low(u: Unit) { 0xDC00 <= u <= 0xDFFF }

  function HexDigit(d: int): Unit
    requires 0 <= d < 16
  {
    if d < 10 then 0x30 + d else 0x57 + d
  }

  function UnicodeEscape(u: Unit): Text {
    [BACKSLASH, SMALL_U,
     HexDigit(u / 16 / 16 / 16), HexDigit(u / 16 / 16 % 16), HexDigit(u / 16 % 16), HexDigit(u % 16)]
  }

  function EscapeUnit(u: Unit): Text {
    if u == 0x08 then [BACKSLASH, 0x62]
    else if u == 0x09 then [BACKSLASH, 0x74]
    else if u == 0x0A then [BACKSLASH, 0x6E]
    else if u == 0x0C then [BACKSLASH, 0x66]
    else if u == 0x0D then [BACKSLASH, 0x72]
    else if u == QUOTE || u == BACKSLASH then [BACKSLASH, u]
    else if u < 0x20 || High(u) || Low(u) then UnicodeEscape(u)
    else [u]
  }

  predicate StartsWithPair(s: Text) {
    |s| > 1 && High(s[0]) && Low(s[1])
  }

  /** How many units of `s` the first block of its escaped form stands for. */
  function Step(s: Text): (n: nat)
    requires s != []
    ensures 1 <= n <= |s|
  {
    if StartsWithPair(s) then 2 else 1
  }

  /** A surrogate pair stays as it is; a lone surrogate is escaped. */
  function Block(s: Text): Text
    requires s != []
  {
    if StartsWithPair(s) then [s[0], s[1]] else EscapeUnit(s[0])
  }

  function Escape(s: Text): Text {
    if s == [] then [] else Block(s) + Escape(s[Step(s)..])
  }

  function Quoted(s: Text): Text {
    [QUOTE] + Escape(s) + [QUOTE]
  }

  function NumberText(n: Number): Text {
    match n
    case Finite(t) => t
    case NegativeZero => ZERO_TEXT
    case Infinite(_) => NULL_TEXT
  }

  // ----- canonicalizeJSON -----

  /** `Object.keys(obj).sort()`. */
  function SortedKeys(ms: seq<Member>): (ks: seq<Text>)
    ensures forall k :: k in ks <==> k in Keys(ms)
  {
    var ks := Sort(Keys(ms));
    assert forall k :: k in ks <==> k in multiset(ks);
    assert forall k :: k in Keys(ms) <==> k in multiset(Keys(ms));
    ks
  }

  function Canonicalize(v: Json): Text
    decreases v, 0
  {
    match v
    case Null => NULL_TEXT
    case Bool(b) => if b then TRUE_TEXT else FALSE_TEXT
    case Num(n) => NumberText(n)
    case Str(s) => Quoted(s)
    case Arr(items) => [OPEN_ARRAY] + JoinItems(items) + [CLOSE_ARRAY]
    case Obj(ms) => [OPEN_OBJECT] + JoinPairs(SortedKeys(ms), ms) + [CLOSE_OBJECT]
  }

  function JoinItems(items: seq<Json>): Text
    decreases items, 0
  {
    if items == [] then []
    else if |items| == 1 then Canonicalize(items[0])
    else Canonicalize(items[0]) + [COMMA] + JoinItems(items[1..])
  }

  function JoinPairs(keys: seq<Text>, ms: seq<Member>): Text
    requires forall k :: k in keys ==> k in Keys(ms)
    decreases ms, |keys|
  {
    if keys == [] then []
    else
      var pair := Quoted(keys[0]) + [COLON] + Canonicalize(Get(ms, keys[0]));
      if |keys| == 1 then pair else pair + [COMMA] + JoinPairs(keys[1..], ms)
  }

  // ----- what the text determines -----

  /** Leaves that print alike: an infinity prints as null, minus zero as zero. */
  function Leaf(v: Json): Json {
    match v
    case Num(Infinite(_)) => Null
    case Num(NegativeZero) => Num(Finite(ZERO_TEXT))
    case _ => v
  }

  /** The same value but for the order of object keys (and `Leaf`). */
  ghost predicate Same(v: Json, w: Json)
    decreases v
  {
    match (v, w)
    case (Arr(a), Arr(b)) => |a| == |b| && forall i :: 0 <= i < |a| ==> Same(a[i], b[i])
    case (Obj(a), Obj(b)) =>
      && (forall k :: k in Keys(a) <==> k in Keys(b))
      && forall i, j :: 0 <= i < |a| && 0 <= j < |b| && a[i].key == b[j].key ==> Same(a[i].value, b[j].value)
    case _ => !v.Arr? && !v.Obj? && Leaf(v) == Leaf(w)
  }

  // No text is a proper prefix of another one of its kind, so a text can be
  // split off in front of a remainder in one way only.

  lemma HexDigitInjective(d: int, e: int)
    requires 0 <= d < 16 && 0 <= e < 16 && HexDigit(d) == HexDigit(e)
    ensures d == e
  {
  }

  lemma HexInjective(u: Unit, v: Unit)
    requires UnicodeEscape(u) == UnicodeEscape(v)
    ensures u == v
  {
    var a, b := UnicodeEscape(u), UnicodeEscape(v);
    assert a[2] == b[2] && a[3] == b[3] && a[4] == b[4] && a[5] == b[5];
    HexDigitInjective(u / 16 / 16 / 16, v / 16 / 16 / 16);
    HexDigitInjective(u / 16 / 16 % 16, v / 16 / 16 % 16);
    HexDigitInjective(u / 16 % 16, v / 16 % 16);
    HexDigitInjective(u % 16, v % 16);
  }

  lemma UnitPrefixFree(u: Unit, v: Unit, x: Text, y: Text)
    requires EscapeUnit(u) + x == EscapeUnit(v) + y
    ensures u == v && x == y
  {
    var a, b := EscapeUnit(u), EscapeUnit(v);
    var z := a + x;
    assert z[0] == a[0] == b[0];
    if |a| > 1 {
      assert |b| > 1 && z[1] == a[1] == b[1];
      if |a| > 2 {
        assert a == z[..6] == b;
        HexInjective(u, v);
      }
    }
    assert x == z[|a|..] && y == (b + y)[|b|..];
  }

  lemma BlockPrefixFree(s: Text, t: Text, x: Text, y: Text)
    requires s != [] && t != [] && Block(s) + x == Block(t) + y
    ensures Step(s) == Step(t) && s[..Step(s)] == t[..Step(t)] && x == y
  {
    var z := Block(s) + x;
    assert z[0] == Block(s)[0] == Block(t)[0];
    if StartsWithPair(s) || StartsWithPair(t) {
      assert z[1] == Block(s)[1] == Block(t)[1];
      assert x == z[2..] && y == (Block(t) + y)[2..];
    } else {
      UnitPrefixFree(s[0], t[0], x, y);
    }
  }

  /** The text from inside a string literal to the end of the input. */
  function StringThen(s: Text, x: Text): Text {
    Escape(s) + ([QUOTE] + x)
  }

  lemma StringSplit(s: Text, x: Text)
    ensures StringThen(s, x)[0] == QUOTE <==> s == []
    ensures s == [] ==> StringThen(s, x) == [QUOTE] + x
    ensures s != [] ==> StringThen(s, x) == Block(s) + StringThen(s[Step(s)..], x)
  {
    if s != [] {
      Associative(Block(s), Escape(s[Step(s)..]), [QUOTE] + x);
    }
  }

  lemma {:induction false} EscapePrefixFree(s: Text, t: Text, x: Text, y: Text)
    requires StringThen(s, x) == StringThen(t, y)
    ensures s == t && x == y
  {
    StringSplit(s, x);
    StringSplit(t, y);
    if s == [] {
      SplitUnique([QUOTE], [QUOTE], x, y);
    } else {
      var s', t' := s[Step(s)..], t[Step(t)..];
      BlockPrefixFree(s, t, StringThen(s', x), StringThen(t', y));
      EscapePrefixFree(s', t', x, y);
      assert s == s[..Step(s)] + s' && t == t[..Step(t)] + t';
    }
  }

  lemma QuotedThen(s: Text, x: Text)
    ensures Quoted(s) + x == [QUOTE] + StringThen(s, x)
  {
    Associative([QUOTE] + Escape(s), [QUOTE], x);
    Associative([QUOTE], Escape(s), [QUOTE] + x);
  }

  lemma QuotedPrefixFree(s: Text, t: Text, x: Text, y: Text)
    requires Quoted(s) + x == Quoted(t) + y
    ensures s == t && x == y
  {
    QuotedThen(s, x);
    QuotedThen(t, y);
    SplitUnique([QUOTE], [QUOTE], StringThen(s, x), StringThen(t, y));
    EscapePrefixFree(s, t, x, y);
  }

  /** What may follow a value: nothing, a comma or a closing bracket. */
  predicate Delimited(r: Text) {
    r == [] || r[0] in {COMMA, CLOSE_ARRAY, CLOSE_OBJECT}
  }

  function NumberRun(z: Text): nat {
    if z == [] || !NumberUnit(z[0]) then 0 else 1 + NumberRun(z[1..])
  }

  lemma {:induction false} NumberRunEnds(a: Text, x: Text)
    requires Delimited(x) && forall i :: 0 <= i < |a| ==> NumberUnit(a[i])
    ensures NumberRun(a + x) == |a|
  {
    if a == [] {
      assert a + x == x;
    } else {
      assert (a + x)[1..] == a[1..] + x;
      NumberRunEnds(a[1..], x);
    }
  }

  lemma LiteralPrefixFree(a: Text, b: Text, x: Text, y: Text)
    requires forall i :: 0 <= i < |a| ==> NumberUnit(a[i])
    requires forall i :: 0 <= i < |b| ==> NumberUnit(b[i])
    requires Delimited(x) && Delimited(y) && a + x == b + y
    ensures a == b && x == y
  {
    NumberRunEnds(a, x);
    NumberRunEnds(b, y);
    SplitUnique(a, b, x, y);
  }

  lemma SplitUnique(a: Text, b: Text, x: Text, y: Text)
    requires a + x == b + y && |a| == |b|
    ensures a == b && x == y
  {
    assert a == (a + x)[..|a|] && b == (b + y)[..|b|];
    assert x == (a + x)[|a|..] && y == (b + y)[|b|..];
  }

  lemma FirstUnit(v: Json)
    ensures Canonicalize(v) != []
    ensures var u := Canonicalize(v)[0]; match v
      case Null => u == 0x6E
      case Bool(b) => u == if b then 0x74 else 0x66
      case Num(n) => if n.Infinite? then u == 0x6E else 0x30 <= u <= 0x39 || u == 0x2D
      case Str(_) => u == QUOTE
      case Arr(_) => u == OPEN_ARRAY
      case Obj(_) => u == OPEN_OBJECT
  {
  }

  /** The text from inside an array to the end of the input, and its rest after
      the first item. */
  function ItemsThen(a: seq<Json>, x: Text): Text {
    JoinItems(a) + ([CLOSE_ARRAY] + x)
  }

  function AfterItem(a: seq<Json>, x: Text): Text
    requires a != []
  {
    if |a| == 1 then [CLOSE_ARRAY] + x else [COMMA] + ItemsThen(a[1..], x)
  }

  lemma ItemsSplit(a: seq<Json>, x: Text)
    ensures ItemsThen(a, x)[0] == CLOSE_ARRAY <==> a == []
    ensures a == [] ==> ItemsThen(a, x) == [CLOSE_ARRAY] + x
    ensures a != [] ==> ItemsThen(a, x) == Canonicalize(a[0]) + AfterItem(a, x)
  {
    if a != [] {
      var first, end := Canonicalize(a[0]), [CLOSE_ARRAY] + x;
      FirstUnit(a[0]);
      if |a| > 1 {
        Associative(first + [COMMA], JoinItems(a[1..]), end);
        Associative(first, [COMMA], JoinItems(a[1..]) + end);
      }
    }
  }

  function PairsThen(ks: seq<Text>, ms: seq<Member>, x: Text): Text
    requires forall k :: k in ks ==> k in Keys(ms)
  {
    JoinPairs(ks, ms) + ([CLOSE_OBJECT] + x)
  }

  function AfterPair(ks: seq<Text>, ms: seq<Member>, x: Text): Text
    requires ks != [] && forall k :: k in ks ==> k in Keys(ms)
  {
    if |ks| == 1 then [CLOSE_OBJECT] + x else [COMMA] + PairsThen(ks[1..], ms, x)
  }

  lemma PairsSplit(ks: seq<Text>, ms: seq<Member>, x: Text)
    requires forall k :: k in ks ==> k in Keys(ms)
    ensures PairsThen(ks, ms, x)[0] == CLOSE_OBJECT <==> ks == []
    ensures ks == [] ==> PairsThen(ks, ms, x) == [CLOSE_OBJECT] + x
    ensures ks != [] ==>
      PairsThen(ks, ms, x) == Quoted(ks[0]) + ([COLON] + (Canonicalize(Get(ms, ks[0])) + AfterPair(ks, ms, x)))
  {
    if ks != [] {
      var key, value, end := Quoted(ks[0]), Canonicalize(Get(ms, ks[0])), [CLOSE_OBJECT] + x;
      PairThen(key, value, AfterPair(ks, ms, x));
      if |ks| > 1 {
        var rest := JoinPairs(ks[1..], ms);
        Associative(key + [COLON] + value + [COMMA], rest, end);
        Associative(key + [COLON] + value, [COMMA], rest + end);
      }
    }
  }

  lemma PairThen(key: Text, value: Text, rest: Text)
    ensures key + [COLON] + value + rest == key + ([COLON] + (value + rest))
  {
    Associative(key, [COLON], value + rest);
    Associative(key + [COLON], value, rest);
  }

  lemma {:induction false} ValuePrefixFree(v: Json, w: Json, x: Text, y: Text)
    requires WellFormed(v) && WellFormed(w) && Delimited(x) && Delimited(y)
    requires Canonicalize(v) + x == Canonicalize(w) + y
    ensures Same(v, w) && x == y
    decreases v, 1
  {
    FirstUnit(v);
    FirstUnit(w);
    assert Canonicalize(v)[0] == (Canonicalize(v) + x)[0] == (Canonicalize(w) + y)[0] == Canonicalize(w)[0];
    match v
    case Str(s) => QuotedPrefixFree(s, w.s, x, y);
    case Arr(a) =>
      ArrayThen(a, x);
      ArrayThen(w.items, y);
      ItemsPrefixFree(a, w.items, x, y);
    case Obj(a) =>
      ObjectThen(a, x);
      ObjectThen(w.members, y);
      PairsPrefixFree(SortedKeys(a), SortedKeys(w.members), a, w.members, x, y);
      SameMembers(a, w.members);
    case _ => LeafPrefixFree(v, w, x, y);
  }

  lemma ArrayThen(a: seq<Json>, x: Text)
    ensures (Canonicalize(Arr(a)) + x)[1..] == ItemsThen(a, x)
  {
    Brackets([OPEN_ARRAY], JoinItems(a), [CLOSE_ARRAY], x);
  }

  lemma Brackets(open: Text, body: Text, end: Text, x: Text)
    requires |open| == 1
    ensures (open + body + end + x)[1..] == body + (end + x)
  {
  }

  lemma ObjectThen(a: seq<Member>, x: Text)
    ensures (Canonicalize(Obj(a)) + x)[1..] == PairsThen(SortedKeys(a), a, x)
  {
    Brackets([OPEN_OBJECT], JoinPairs(SortedKeys(a), a), [CLOSE_OBJECT], x);
  }

  lemma LeafPrefixFree(v: Json, w: Json, x: Text, y: Text)
    requires (v.Null? || v.Bool? || v.Num?) && (w.Null? || w.Bool? || w.Num?)
    requires Delimited(x) && Delimited(y) && Canonicalize(v) + x == Canonicalize(w) + y
    ensures Same(v, w) && x == y
  {
    var a, b := Canonicalize(v), Canonicalize(w);
    FirstUnit(v);
    FirstUnit(w);
    assert a[0] == (a + x)[0] == (b + y)[0] == b[0];
    if NumberUnit(a[0]) {
      LiteralPrefixFree(a, b, x, y);
    } else {
      SplitUnique(a, b, x, y);
    }
  }

  lemma {:induction false} ItemsPrefixFree(a: seq<Json>, b: seq<Json>, x: Text, y: Text)
    requires (forall v :: v in a ==> WellFormed(v)) && (forall w :: w in b ==> WellFormed(w))
    requires ItemsThen(a, x) == ItemsThen(b, y)
    ensures |a| == |b| && x == y && forall i :: 0 <= i < |a| ==> Same(a[i], b[i])
    decreases a, 0
  {
    ItemsSplit(a, x);
    ItemsSplit(b, y);
    if a == [] {
      SplitUnique([CLOSE_ARRAY], [CLOSE_ARRAY], x, y);
    } else {
      var x', y' := AfterItem(a, x), AfterItem(b, y);
      ValuePrefixFree(a[0], b[0], x', y');
      assert x'[0] == y'[0];
      SplitUnique(x'[..1], y'[..1], x'[1..], y'[1..]);
      if |a| > 1 {
        ItemsPrefixFree(a[1..], b[1..], x, y);
        assert forall i :: 1 <= i < |a| ==> a[i] == a[1..][i - 1] && b[i] == b[1..][i - 1];
      }
    }
  }

  lemma KeyPrefixFree(j: Text, k: Text, x: Text, y: Text)
    requires Quoted(j) + ([COLON] + x) == Quoted(k) + ([COLON] + y)
    ensures j == k && x == y
  {
    QuotedPrefixFree(j, k, [COLON] + x, [COLON] + y);
    SplitUnique([COLON], [COLON], x, y);
  }

  lemma ConsEqual<T>(s: seq<T>, t: seq<T>)
    requires s != [] && t != [] && s[0] == t[0] && s[1..] == t[1..]
    ensures s == t
  {
    assert s == [s[0]] + s[1..] && t == [t[0]] + t[1..];
  }

  lemma PairsTail(j: seq<Text>, k: seq<Text>, a: seq<Member>, b: seq<Member>, x: Text, y: Text)
    requires j != [] && k != [] && (forall i :: i in j ==> i in Keys(a)) && (forall i :: i in k ==> i in Keys(b))
    requires AfterPair(j, a, x) == AfterPair(k, b, y)
    ensures |j| == 1 <==> |k| == 1
    ensures if |j| == 1 then x == y else PairsThen(j[1..], a, x) == PairsThen(k[1..], b, y)
  {
    var x', y' := AfterPair(j, a, x), AfterPair(k, b, y);
    assert x'[0] == y'[0];
    SplitUnique(x'[..1], y'[..1], x'[1..], y'[1..]);
  }

  lemma {:induction false} PairsPrefixFree(j: seq<Text>, k: seq<Text>, a: seq<Member>, b: seq<Member>, x: Text, y: Text)
    requires (forall i :: i in j ==> i in Keys(a)) && (forall i :: i in k ==> i in Keys(b))
    requires (forall m :: m in a ==> WellFormed(m.value)) && (forall m :: m in b ==> WellFormed(m.value))
    requires PairsThen(j, a, x) == PairsThen(k, b, y)
    ensures j == k && x == y && forall i :: i in j ==> Same(Get(a, i), Get(b, i))
    decreases a, 0, |j|
  {
    PairsSplit(j, a, x);
    PairsSplit(k, b, y);
    if j == [] {
      SplitUnique([CLOSE_OBJECT], [CLOSE_OBJECT], x, y);
    } else {
      var v, w, x', y' := Get(a, j[0]), Get(b, k[0]), AfterPair(j, a, x), AfterPair(k, b, y);
      KeyPrefixFree(j[0], k[0], Canonicalize(v) + x', Canonicalize(w) + y');
      ValuePrefixFree(v, w, x', y');
      PairsTail(j, k, a, b, x, y);
      if |j| > 1 {
        PairsPrefixFree(j[1..], k[1..], a, b, x, y);
      }
      ConsEqual(j, k);
      forall i | i in j ensures Same(Get(a, i), Get(b, i)) {
        assert i == j[0] || i in j[1..];
      }
    }
  }

  /** With distinct keys, looking a member's key up finds that member. */
  lemma GetMember(ms: seq<Member>, i: nat)
    requires i < |ms| && Distinct(Keys(ms))
    ensures Get(ms, Keys(ms)[i]) == ms[i].value
  {
    var v := Get(ms, ms[i].key);
    var j :| 0 <= j < |ms| && ms[j] == Member(ms[i].key, v);
    assert Keys(ms)[j] == Keys(ms)[i];
  }

  lemma SameMembers(a: seq<Member>, b: seq<Member>)
    requires Distinct(Keys(a)) && Distinct(Keys(b)) && SortedKeys(a) == SortedKeys(b)
    requires forall k :: k in SortedKeys(a) ==> Same(Get(a, k), Get(b, k))
    ensures Same(Obj(a), Obj(b))
  {
    forall i, j | 0 <= i < |a| && 0 <= j < |b| && a[i].key == b[j].key ensures Same(a[i].value, b[j].value) {
      GetMember(a, i);
      GetMember(b, j);
      assert Keys(a)[i] in SortedKeys(a);
    }
    forall k ensures k in Keys(a) <==> k in Keys(b) {
      assert k in SortedKeys(a) <==> k in Keys(a);
    }
  }

  lemma {:induction false} SameText(v: Json, w: Json)
    requires WellFormed(v) && WellFormed(w) && Same(v, w)
    ensures Canonicalize(v) == Canonicalize(w)
    decreases v, 1
  {
    match v
    case Arr(a) => SameItems(a, w.items);
    case Obj(a) =>
      var b := w.members;
      SameElements(Keys(a), Keys(b));
      SortCanonical(Keys(a), Keys(b));
      forall k | k in Keys(a) ensures Same(Get(a, k), Get(b, k)) {
        assert Member(k, Get(a, k)) in a && Member(k, Get(b, k)) in b;
      }
      SamePairs(SortedKeys(a), a, b);
    case _ =>
  }

  lemma {:induction false} SameItems(a: seq<Json>, b: seq<Json>)
    requires |a| == |b| && forall i :: 0 <= i < |a| ==> Same(a[i], b[i])
    requires (forall v :: v in a ==> WellFormed(v)) && (forall w :: w in b ==> WellFormed(w))
    ensures JoinItems(a) == JoinItems(b)
    decreases a, 0
  {
    if a != [] {
      SameText(a[0], b[0]);
      SameItems(a[1..], b[1..]);
    }
  }

  lemma {:induction false} SamePairs(ks: seq<Text>, a: seq<Member>, b: seq<Member>)
    requires forall k :: k in ks ==> k in Keys(a) && k in Keys(b) && Same(Get(a, k), Get(b, k))
    requires (forall m :: m in a ==> WellFormed(m.value)) && (forall m :: m in b ==> WellFormed(m.value))
    ensures JoinPairs(ks, a) == JoinPairs(ks, b)
    decreases a, 0, |ks|
  {
    if ks != [] {
      SameText(Get(a, ks[0]), Get(b, ks[0]));
      SamePairs(ks[1..], a, b);
    }
  }

  /** Two JSON values have the same canonical text exactly when they are the same
      up to the order of object keys (and the three numbers without a text). */
  lemma CanonicalTextDetermines(v: Json, w: Json)
    requires WellFormed(v) && WellFormed(w)
    ensures Canonicalize(v) == Canonicalize(w) <==> Same(v, w)
  {
    if Same(v, w) {
      SameText(v, w);
    } else if Canonicalize(v) == Canonicalize(w) {
      assert Canonicalize(v) + [] == Canonicalize(w) + [];
      ValuePrefixFree(v, w, [], []);
    }
  }

  // ----- the values whose text says everything -----

  /** Every number in the value has a text of its own. */
  ghost predicate Printable(v: Json) {
    match v
    case Num(n) => n.Finite?
    case Arr(items) => forall x :: x in items ==> Printable(x)
    case Obj(ms) => forall m :: m in ms ==> Printable(m.value)
    case _ => true
  }

  /** The same value but for the order of object keys. */
  ghost predicate Reordered(v: Json, w: Json)
    decreases v
  {
    match (v, w)
    case (Arr(a), Arr(b)) => |a| == |b| && forall i :: 0 <= i < |a| ==> Reordered(a[i], b[i])
    case (Obj(a), Obj(b)) =>
      && (forall k :: k in Keys(a) <==> k in Keys(b))
      && forall i, j :: 0 <= i < |a| && 0 <= j < |b| && a[i].key == b[j].key ==> Reordered(a[i].value, b[j].value)
    case _ => !v.Arr? && !v.Obj? && v == w
  }

  lemma {:induction false} PrintableSame(v: Json, w: Json)
    requires Printable(v) && Printable(w)
    ensures Same(v, w) <==> Reordered(v, w)
    decreases v
  {
    match (v, w)
    case (Arr(a), Arr(b)) =>
      forall i | 0 <= i < |a| && i < |b| ensures Same(a[i], b[i]) <==> Reordered(a[i], b[i]) {
        PrintableSame(a[i], b[i]);
      }
    case (Obj(a), Obj(b)) =>
      forall i, j | 0 <= i < |a| && 0 <= j < |b|
        ensures Same(a[i].value, b[j].value) <==> Reordered(a[i].value, b[j].value)
      {
        PrintableSame(a[i].value, b[j].value);
      }
    case _ =>
  }

  /** On values whose numbers are finite and not minus zero, equal texts mean
      equal values up to key order, and conversely. */
  lemma CanonicalTextExact(v: Json, w: Json)
    requires WellFormed(v) && WellFormed(w) && Printable(v) && Printable(w)
    ensures Canonicalize(v) == Canonicalize(w) <==> Reordered(v, w)
  {
    CanonicalTextDetermines(v, w);
    PrintableSame(v, w);
  }

  /** Beyond them it fails: 1e999 has the text of null. */
  lemma InfinityPrintsAsNull(k: Text)
    ensures var v, w := Obj([Member(k, Num(Infinite(false)))]), Obj([Member(k, Null)]);
      WellFormed(v) && WellFormed(w) && Canonicalize(v) == Canonicalize(w) && !Reordered(v, w)
  {
    var v, w := [Member(k, Num(Infinite(false)))], [Member(k, Null)];
    assert Keys(v) == [k] == Keys(w);
    SameText(Obj(v), Obj(w));
    assert v[0].key == w[0].key && !Reordered(v[0].value, w[0].value);
  }

  // ----- the input of hashParams -----

  /** `params ?? {}`. */
  function OrEmpty(params: Json): Json {
    if params == Null then Obj([]) else params
  }

  function HashInput(name: Text, params: Json): Text {
    name + [COLON] + Canonicalize(OrEmpty(params))
  }

  /** A scanner of JSON text: outside a string at some bracket depth, inside a
      string, after a backslash, or stopped at something no JSON text has. */
  datatype Scan = Outside(depth: int) | Inside(depth: int) | Escaped(depth: int) | Stopped

  function ScanUnit(st: Scan, u: Unit): Scan {
    match st
    case Outside(d) =>
      if u == QUOTE then Inside(d)
      else if u == OPEN_ARRAY || u == OPEN_OBJECT then Outside(d + 1)
      else if u == CLOSE_ARRAY || u == CLOSE_OBJECT then Outside(d - 1)
      else if u == BACKSLASH || (u == COLON && d <= 0) then Stopped
      else st
    case Inside(d) => if u == QUOTE then Outside(d) else if u == BACKSLASH then Escaped(d) else st
    case Escaped(d) => Inside(d)
    case Stopped => Stopped
  }

  function Run(st: Scan, t: Text): Scan
    decreases t
  {
    if t == [] then st else Run(ScanUnit(st, t[0]), t[1..])
  }

  lemma {:induction false} RunConcat(st: Scan, a: Text, b: Text)
    ensures Run(st, a + b) == Run(Run(st, a), b)
    decreases a
  {
    if a == [] {
      assert a + b == b;
    } else {
      assert (a + b)[1..] == a[1..] + b;
      RunConcat(ScanUnit(st, a[0]), a[1..], b);
    }
  }

  lemma {:induction false} RunStopped(t: Text)
    ensures Run(Stopped, t) == Stopped
  {
    if t != [] { RunStopped(t[1..]); }
  }

  predicate Plain(u: Unit) {
    u !in {QUOTE, BACKSLASH, COLON, OPEN_ARRAY, OPEN_OBJECT, CLOSE_ARRAY, CLOSE_OBJECT}
  }

  lemma {:induction false} RunPlain(st: Scan, t: Text)
    requires st.Outside? || st.Inside?
    requires forall i :: 0 <= i < |t| ==> Plain(t[i])
    ensures Run(st, t) == st
  {
    if t != [] { RunPlain(st, t[1..]); }
  }

  /** The states that a value's text leads back to: the scanner's own level when
      it starts outside; when it starts inside a string it stays out of phase. */
  ghost predicate Kept(st: Scan, r: Scan) {
    match st
    case Outside(d) => d >= 0 ==> r == st
    case Inside(_) => r.Inside? || r.Stopped?
    case _ => r == st
  }

  ghost predicate Start(st: Scan) {
    st.Stopped? || st.Inside? || (st.Outside? && st.depth >= 0)
  }

  lemma {:induction false} RunEscape(st: Scan, s: Text)
    requires st.Inside? || st.Outside?
    ensures st.Inside? ==> Run(st, Escape(s)) == st
    ensures st.Outside? ==> Run(st, Escape(s)).Outside? || Run(st, Escape(s)).Stopped?
    decreases s
  {
    if s != [] {
      var b, rest := Block(s), Escape(s[Step(s)..]);
      RunConcat(st, b, rest);
      RunBlock(st, s);
      if Run(st, b).Stopped? {
        RunStopped(rest);
      } else {
        RunEscape(Run(st, b), s[Step(s)..]);
      }
    }
  }

  lemma RunBlock(st: Scan, s: Text)
    requires s != [] && (st.Inside? || st.Outside?)
    ensures st.Inside? ==> Run(st, Block(s)) == st
    ensures st.Outside? ==> Run(st, Block(s)).Outside? || Run(st, Block(s)).Stopped?
  {
    var b := Block(s);
    if StartsWithPair(s) {
      RunPlain(st, b);
    } else if |b| == 1 {
      assert Run(st, b) == Run(ScanUnit(st, b[0]), []);
    } else {
      RunBackslash(st, b);
    }
  }

  lemma RunBackslash(st: Scan, b: Text)
    requires |b| >= 2 && b[0] == BACKSLASH && (st.Inside? || st.Outside?)
    requires forall i :: 2 <= i < |b| ==> Plain(b[i])
    ensures Run(st, b) == if st.Inside? then st else Stopped
  {
    assert Run(st, b) == Run(ScanUnit(st, BACKSLASH), b[1..]) && b[1..][1..] == b[2..];
    if st.Inside? {
      RunPlain(st, b[2..]);
    } else {
      RunStopped(b[2..]);
    }
  }

  lemma RunQuoted(st: Scan, s: Text)
    requires Start(st)
    ensures Kept(st, Run(st, Quoted(s)))
  {
    if st.Stopped? {
      RunStopped(Quoted(s));
    } else {
      RunConcat(st, [QUOTE] + Escape(s), [QUOTE]);
      RunConcat(st, [QUOTE], Escape(s));
      RunEscape(ScanUnit(st, QUOTE), s);
      RunStopped([QUOTE]);
    }
  }

  lemma RunBrackets(st: Scan, open: Unit, body: Text, close: Unit)
    requires st.Inside? || (st.Outside? && st.depth >= 0)
    requires (open, close) in {(OPEN_ARRAY, CLOSE_ARRAY), (OPEN_OBJECT, CLOSE_OBJECT)}
    requires Kept(ScanUnit(st, open), Run(ScanUnit(st, open), body))
    ensures Kept(st, Run(st, [open] + body + [close]))
  {
    RunConcat(st, [open] + body, [close]);
    RunConcat(st, [open], body);
    RunStopped([close]);
  }

  lemma {:induction false} RunValue(st: Scan, v: Json)
    requires Start(st)
    ensures Kept(st, Run(st, Canonicalize(v)))
    decreases v, 1
  {
    hide Run, Canonicalize, JoinItems, JoinPairs;
    if st.Stopped? {
      RunStopped(Canonicalize(v));
      return;
    }
    CanonicalForm(v);
    match v
    case Str(s) => RunQuoted(st, s);
    case Arr(a) =>
      RunItems(ScanUnit(st, OPEN_ARRAY), a);
      RunBrackets(st, OPEN_ARRAY, JoinItems(a), CLOSE_ARRAY);
    case Obj(a) =>
      var body := JoinPairs(SortedKeys(a), a);
      RunPairs(ScanUnit(st, OPEN_OBJECT), SortedKeys(a), a);
      RunBrackets(st, OPEN_OBJECT, body, CLOSE_OBJECT);
    case _ => RunPlain(st, Canonicalize(v));
  }

  /** The text of a value by its kind; no unit in that of a leaf means anything to the
      scanner. */
  lemma CanonicalForm(v: Json)
    ensures match v
      case Str(s) => Canonicalize(v) == Quoted(s)
      case Arr(a) => Canonicalize(v) == [OPEN_ARRAY] + JoinItems(a) + [CLOSE_ARRAY]
      case Obj(a) => Canonicalize(v) == [OPEN_OBJECT] + JoinPairs(SortedKeys(a), a) + [CLOSE_OBJECT]
      case _ => forall i :: 0 <= i < |Canonicalize(v)| ==> Plain(Canonicalize(v)[i])
  {
  }

  lemma {:induction false} RunItems(st: Scan, a: seq<Json>)
    requires Start(st)
    ensures Kept(st, Run(st, JoinItems(a)))
    decreases a, 0
  {
    if a != [] {
      var first := Canonicalize(a[0]);
      RunValue(st, a[0]);
      if |a| > 1 {
        RunConcat(st, first + [COMMA], JoinItems(a[1..]));
        RunConcat(st, first, [COMMA]);
        RunItems(Run(st, first + [COMMA]), a[1..]);
      }
    }
  }

  lemma RunThree(st: Scan, a: Text, b: Text, c: Text)
    ensures Run(st, a + b + c) == Run(Run(Run(st, a), b), c)
  {
    RunConcat(st, a + b, c);
    RunConcat(st, a, b);
  }

  lemma {:induction false} RunPairs(st: Scan, ks: seq<Text>, ms: seq<Member>)
    requires forall k :: k in ks ==> k in Keys(ms)
    requires Start(st) && (st.Outside? ==> st.depth >= 1)
    ensures Kept(st, Run(st, JoinPairs(ks, ms)))
    decreases ms, 0, |ks|
  {
    hide Canonicalize, Quoted;
    if ks != [] {
      var key, value := Quoted(ks[0]), Canonicalize(Get(ms, ks[0]));
      RunThree(st, key, [COLON], value);
      RunQuoted(st, ks[0]);
      RunValue(Run(Run(st, key), [COLON]), Get(ms, ks[0]));
      if |ks| > 1 {
        var pair := key + [COLON] + value;
        RunThree(st, pair, [COMMA], JoinPairs(ks[1..], ms));
        RunPairs(Run(Run(st, pair), [COMMA]), ks[1..], ms);
      }
    }
  }

  /** After a colon, a value's text does not lead back to the scanner's own level. */
  lemma {:induction false} RunAfterColon(st: Scan, w: Json)
    ensures Run(Run(st, [COLON]), Canonicalize(w)) != Outside(0)
  {
    var next := ScanUnit(st, COLON);
    assert Run(st, [COLON]) == next;
    RunValue(next, w);
    assert Kept(next, Run(next, Canonicalize(w)));
  }

  /** No canonical text follows a colon at the end of another one. */
  lemma {:induction false} NoTextInsideAnother(v: Json, w: Json, q: Text)
    ensures Canonicalize(v) != q + [COLON] + Canonicalize(w)
  {
    RunValue(Outside(0), v);
    RunThree(Outside(0), q, [COLON], Canonicalize(w));
    RunAfterColon(Run(Outside(0), q), w);
  }

  lemma HashInputSplit(m: Text, n: Text, p: Json, q: Json)
    requires |m| <= |n| && m + [COLON] + Canonicalize(p) == n + [COLON] + Canonicalize(q)
    ensures m == n && Canonicalize(p) == Canonicalize(q)
  {
    if |m| < |n| {
      var k := n[|m| + 1..];
      var z := n + [COLON] + Canonicalize(q);
      assert Canonicalize(p) == (m + [COLON] + Canonicalize(p))[|m| + 1..] == z[|m| + 1..];
      assert z[|m| + 1..] == k + [COLON] + Canonicalize(q);
      NoTextInsideAnother(p, q, k);
    } else {
      SplitUnique(m + [COLON], n + [COLON], Canonicalize(p), Canonicalize(q));
      SplitUnique(m, n, [COLON], [COLON]);
    }
  }

  /** The text that is hashed determines the method and the params, whatever the
      method name contains. */
  lemma HashInputDetermines(m: Text, n: Text, p: Json, q: Json)
    requires WellFormed(p) && WellFormed(q)
    ensures HashInput(m, p) == HashInput(n, q) <==> m == n && Same(OrEmpty(p), OrEmpty(q))
  {
    CanonicalTextDetermines(OrEmpty(p), OrEmpty(q));
    if HashInput(m, p) == HashInput(n, q) {
      if |m| <= |n| {
        HashInputSplit(m, n, OrEmpty(p), OrEmpty(q));
      } else {
        HashInputSplit(n, m, OrEmpty(q), OrEmpty(p));
      }
    }
  }
}
