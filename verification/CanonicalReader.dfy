/** A strict reader of canonical JSON text, written from the grammar of RFC 8259:
    no white space, the seven short escapes, lower-case hexadecimal escapes for
    the other control characters and for lone surrogates only, and the keys of an
    object in ascending code-unit order. What is printed is read back, and
    nothing else is read. */
module CanonicalReader {
  import opened CanonicalJson
  import opened Options
  import opened Sequences
  import opened Utf16

  type Result<T> = Option<(T, Text)>

  predicate Begins(t: Text, c: char) {
    t != [] && t[0] == c as int
  }

  predicate BeginsWith(t: Text, s: string) {
    |s| <= |t| && forall i :: 0 <= i < |s| ==> t[i] == s[i] as int
  }

  // ----- strings (section 7) -----

  predicate Leads(u: Unit) { 0xD800 <= u < 0xDC00 }
  predicate Trails(u: Unit) { 0xDC00 <= u < 0xE000 }

  function ShortEscape(u: Unit): Option<Unit> {
    if u == '"' as int then Some(0x22)
    else if u == '\\' as int then Some(0x5C)
    else if u == 'b' as int then Some(0x08)
    else if u == 'f' as int then Some(0x0C)
    else if u == 'n' as int then Some(0x0A)
    else if u == 'r' as int then Some(0x0D)
    else if u == 't' as int then Some(0x09)
    else None
  }

  function HexValue(u: Unit): (r: Option<nat>)
    ensures r.Some? ==> r.value < 16
  {
    if '0' as int <= u <= '9' as int then Some(u - '0' as int)
    else if 'a' as int <= u <= 'f' as int then Some(u - 'a' as int + 10)
    else None
  }

  function FourHex(a: Unit, b: Unit, c: Unit, d: Unit): Option<Unit> {
    match (HexValue(a), HexValue(b), HexValue(c), HexValue(d))
    case (Some(i), Some(j), Some(k), Some(l)) => Some(i * 0x1000 + j * 0x100 + k * 0x10 + l)
    case _ => None
  }

  /** A unit that is written in hexadecimal: a control character without a short
      escape, or a surrogate, which is then a lone one. */
  predicate Hexed(u: Unit) {
    (u < 0x20 && u !in {0x08, 0x09, 0x0A, 0x0C, 0x0D}) || Leads(u) || Trails(u)
  }

  function ReadEscape(t: Text): (r: Result<Text>)
    ensures r.Some? ==> |r.value.1| < |t|
  {
    if t == [] then None
    else match ShortEscape(t[0])
      case Some(u) => Some(([u], t[1..]))
      case None =>
        if !Begins(t, 'u') || |t| < 5 then None
        else match FourHex(t[1], t[2], t[3], t[4])
          case Some(u) => if Hexed(u) then Some(([u], t[5..])) else None
          case None => None
  }

  /** One unit, or a surrogate pair as it is. */
  function ReadChar(t: Text): (r: Result<Text>)
    ensures r.Some? ==> |r.value.1| < |t|
  {
    if t == [] || t[0] < 0x20 || Trails(t[0]) then None
    else if Begins(t, '\\') then ReadEscape(t[1..])
    else if Leads(t[0]) then if |t| > 1 && Trails(t[1]) then Some((t[..2], t[2..])) else None
    else Some((t[..1], t[1..]))
  }

  /** The rest of a string, its closing quote included. */
  function ReadChars(t: Text): (r: Result<Text>)
    ensures r.Some? ==> |r.value.1| < |t|
    decreases |t|
  {
    if Begins(t, '"') then Some(([], t[1..]))
    else match ReadChar(t)
      case None => None
      case Some((c, rest)) =>
        match ReadChars(rest)
        case None => None
        case Some((cs, end)) =>
          if |c| == 1 && Leads(c[0]) && cs != [] && Trails(cs[0]) then None else Some((c + cs, end))
  }

  // ----- values (sections 2 to 6) -----

  function ReadNumber(t: Text): (r: Result<Json>)
    ensures r.Some? ==> |r.value.1| < |t|
  {
    var n := NumberRun(t);
    if n <= |t| && IsLiteral(t[..n]) then Some((Num(Finite(t[..n])), t[n..])) else None
  }

  function ReadValue(t: Text): (r: Result<Json>)
    ensures r.Some? ==> |r.value.1| < |t|
    decreases |t|, 0
  {
    if BeginsWith(t, "null") then Some((Null, t[4..]))
    else if BeginsWith(t, "true") then Some((Bool(true), t[4..]))
    else if BeginsWith(t, "false") then Some((Bool(false), t[5..]))
    else if Begins(t, '"') then
      match ReadChars(t[1..])
      case None => None
      case Some((s, rest)) => Some((Str(s), rest))
    else if Begins(t, '[') then
      if Begins(t[1..], ']') then Some((Arr([]), t[2..]))
      else
        match ReadItems(t[1..])
        case None => None
        case Some((items, rest)) => Some((Arr(items), rest))
    else if Begins(t, '{') then
      if Begins(t[1..], '}') then Some((Obj([]), t[2..]))
      else
        match ReadPairs(t[1..])
        case None => None
        case Some((ms, rest)) => Some((Obj(ms), rest))
    else ReadNumber(t)
  }

  function ReadItems(t: Text): (r: Result<seq<Json>>)
    ensures r.Some? ==> r.value.0 != [] && |r.value.1| < |t|
    decreases |t|, 1
  {
    match ReadValue(t)
    case None => None
    case Some((v, rest)) =>
      if Begins(rest, ']') then Some(([v], rest[1..]))
      else if !Begins(rest, ',') then None
      else
        match ReadItems(rest[1..])
        case None => None
        case Some((vs, end)) => Some(([v] + vs, end))
  }

  function ReadPair(t: Text): (r: Result<Member>)
    ensures r.Some? ==> |r.value.1| < |t|
    decreases |t|, 1
  {
    if !Begins(t, '"') then None
    else
      match ReadChars(t[1..])
      case None => None
      case Some((k, rest)) =>
        if !Begins(rest, ':') then None
        else
          match ReadValue(rest[1..])
          case None => None
          case Some((v, end)) => Some((Member(k, v), end))
  }

  function ReadPairs(t: Text): (r: Result<seq<Member>>)
    ensures r.Some? ==> r.value.0 != [] && |r.value.1| < |t|
    decreases |t|, 2
  {
    match ReadPair(t)
    case None => None
    case Some((m, rest)) =>
      if Begins(rest, '}') then Some(([m], rest[1..]))
      else if !Begins(rest, ',') then None
      else
        match ReadPairs(rest[1..])
        case None => None
        case Some((ms, end)) => if Precedes(m.key, ms[0].key) then Some(([m] + ms, end)) else None
  }

  /** A whole text. */
  function ReadText(t: Text): Option<Json> {
    match ReadValue(t)
    case Some((v, rest)) => if rest == [] then Some(v) else None
    case None => None
  }

  // ----- what is read back -----

  /** The value with the keys of its objects in order, an infinity as null and
      minus zero as zero. */
  function Normal(v: Json): Json
    decreases v, 0
  {
    match v
    case Num(NegativeZero) => Num(Finite([0x30]))
    case Num(Infinite(_)) => Null
    case Arr(items) => Arr(NormalItems(items))
    case Obj(ms) => Obj(NormalPairs(SortedKeys(ms), ms))
    case _ => v
  }

  function NormalItems(items: seq<Json>): (r: seq<Json>)
    ensures |r| == |items|
    decreases items, 0
  {
    if items == [] then [] else [Normal(items[0])] + NormalItems(items[1..])
  }

  function NormalPairs(keys: seq<Text>, ms: seq<Member>): (r: seq<Member>)
    requires forall k :: k in keys ==> k in Keys(ms)
    ensures |r| == |keys| && forall i :: 0 <= i < |r| ==> r[i].key == keys[i]
    decreases ms, |keys|
  {
    if keys == [] then [] else [Member(keys[0], Normal(Get(ms, keys[0])))] + NormalPairs(keys[1..], ms)
  }

  // ----- printing, then reading -----

  lemma HexRead(d: int)
    requires 0 <= d < 16
    ensures HexValue(HexDigit(d)) == Some(d)
  {
  }

  lemma UnitRead(u: Unit, rest: Text)
    requires Hexed(u)
    ensures ReadEscape(UnicodeEscape(u)[1..] + rest) == Some(([u], rest))
  {
    HexRead(u / 16 / 16 / 16);
    HexRead(u / 16 / 16 % 16);
    HexRead(u / 16 % 16);
    HexRead(u % 16);
    var t := UnicodeEscape(u)[1..] + rest;
    assert t[5..] == rest;
  }

  lemma EscapedRead(u: Unit, rest: Text)
    ensures ReadChar(EscapeUnit(u) + rest) == Some(([u], rest))
    ensures !Begins(EscapeUnit(u) + rest, '"')
  {
    var t := EscapeUnit(u) + rest;
    if Hexed(u) {
      UnitRead(u, rest);
      assert t[1..] == UnicodeEscape(u)[1..] + rest;
    } else if |EscapeUnit(u)| == 2 {
      assert t[1..] == [EscapeUnit(u)[1]] + rest && t[1..][1..] == rest;
    } else {
      assert t[..1] == [u] && t[1..] == rest;
    }
  }

  lemma {:induction false} CharsRead(s: Text, x: Text)
    ensures ReadChars(StringThen(s, x)) == Some((s, x))
  {
    StringSplit(s, x);
    if s != [] {
      var t, rest := StringThen(s, x), StringThen(s[Step(s)..], x);
      CharsRead(s[Step(s)..], x);
      if StartsWithPair(s) {
        assert t[..2] == Block(s) && t[2..] == rest;
        assert s == [s[0], s[1]] + s[2..];
      } else {
        EscapedRead(s[0], rest);
        assert s == [s[0]] + s[1..];
      }
    } else {
      assert StringThen(s, x)[1..] == x;
    }
  }

  lemma StringRead(s: Text, x: Text)
    ensures Begins(Quoted(s) + x, '"') && ReadChars((Quoted(s) + x)[1..]) == Some((s, x))
  {
    QuotedThen(s, x);
    assert ([QUOTE] + StringThen(s, x))[1..] == StringThen(s, x);
    CharsRead(s, x);
  }

  lemma NumberRead(lit: Literal, x: Text)
    requires Delimited(x)
    ensures ReadValue(lit + x) == Some((Num(Finite(lit)), x))
  {
    NumberRunEnds(lit, x);
    assert (lit + x)[..|lit|] == lit && (lit + x)[|lit|..] == x && (lit + x)[0] == lit[0];
  }

  lemma WordRead(v: Json, x: Text)
    requires v.Null? || v.Bool?
    ensures ReadValue(Canonicalize(v) + x) == Some((v, x))
  {
    var a := Canonicalize(v);
    assert (a + x)[0] == a[0] && (a + x)[|a|..] == x;
  }

  /** Every printed value is read back, whatever follows it. */
  lemma {:induction false} ValueRead(v: Json, x: Text)
    requires WellFormed(v) && Delimited(x)
    ensures ReadValue(Canonicalize(v) + x) == Some((Normal(v), x))
    decreases v, 0
  {
    hide ReadValue, ReadItems, ReadPairs, JoinItems, JoinPairs, Delimited;
    match v
    case Num(Finite(lit)) => NumberRead(lit, x);
    case Num(NegativeZero) => NumberRead([0x30], x);
    case Num(Infinite(_)) => WordRead(Null, x);
    case Str(s) => TextRead(s, x);
    case Arr(items) =>
      if items != [] { ItemsRead(items, x); }
      ArrayRead(items, x);
    case Obj(ms) =>
      if SortedKeys(ms) != [] {
        SortedAscend(ms);
        PairsRead(SortedKeys(ms), ms, x);
      }
      ObjectRead(ms, x);
    case _ => WordRead(v, x);
  }

  lemma TextRead(s: Text, x: Text)
    ensures ReadValue(Quoted(s) + x) == Some((Str(s), x))
  {
    StringRead(s, x);
  }

  lemma ArrayRead(items: seq<Json>, x: Text)
    requires items == [] || ReadItems(ItemsThen(items, x)) == Some((NormalItems(items), x))
    ensures ReadValue(Canonicalize(Arr(items)) + x) == Some((Arr(NormalItems(items)), x))
  {
    var t := Canonicalize(Arr(items)) + x;
    FirstUnit(Arr(items));
    assert t[0] == Canonicalize(Arr(items))[0];
    ArrayThen(items, x);
    ItemsSplit(items, x);
    if items == [] {
      assert t[2..] == t[1..][1..] == x;
    } else {
      AfterItemRead(items, x);
    }
  }

  lemma ObjectRead(ms: seq<Member>, x: Text)
    requires var ks := SortedKeys(ms);
      ks == [] || ReadPairs(PairsThen(ks, ms, x)) == Some((NormalPairs(ks, ms), x))
    ensures ReadValue(Canonicalize(Obj(ms)) + x) == Some((Obj(NormalPairs(SortedKeys(ms), ms)), x))
  {
    var t := Canonicalize(Obj(ms)) + x;
    FirstUnit(Obj(ms));
    assert t[0] == Canonicalize(Obj(ms))[0];
    ObjectThen(ms, x);
    PairsSplit(SortedKeys(ms), ms, x);
    if SortedKeys(ms) == [] {
      assert t[2..] == t[1..][1..] == x;
    } else {
      AfterPairRead(SortedKeys(ms), ms, x);
    }
  }

  lemma AfterItemRead(a: seq<Json>, x: Text)
    requires a != []
    ensures var t := AfterItem(a, x);
      if |a| == 1 then Begins(t, ']') && t[1..] == x
      else !Begins(t, ']') && Begins(t, ',') && t[1..] == ItemsThen(a[1..], x)
    ensures Delimited(AfterItem(a, x))
    ensures !Begins(ItemsThen(a, x), ']')
  {
    ItemsSplit(a, x);
  }

  lemma NormalItemsSplit(a: seq<Json>)
    requires a != []
    ensures NormalItems(a) == [Normal(a[0])] + if |a| == 1 then [] else NormalItems(a[1..])
  {
  }

  lemma ItemsStep(t: Text, v: Json, rest: Text, vs: seq<Json>, end: Text)
    requires ReadValue(t) == Some((v, rest)) && !Begins(rest, ']') && Begins(rest, ',')
    requires ReadItems(rest[1..]) == Some((vs, end))
    ensures ReadItems(t) == Some(([v] + vs, end))
  {
  }

  lemma {:induction false} ItemsRead(a: seq<Json>, x: Text)
    requires a != [] && forall v :: v in a ==> WellFormed(v)
    ensures ReadItems(ItemsThen(a, x)) == Some((NormalItems(a), x))
    decreases a, 0
  {
    hide ItemsThen, AfterItem, Canonicalize, ReadValue, NormalItems, Normal, WellFormed;
    ItemsSplit(a, x);
    AfterItemRead(a, x);
    ValueRead(a[0], AfterItem(a, x));
    NormalItemsSplit(a);
    if |a| > 1 {
      ItemsRead(a[1..], x);
      ItemsStep(ItemsThen(a, x), Normal(a[0]), AfterItem(a, x), NormalItems(a[1..]), x);
    } else {
      assert [Normal(a[0])] + [] == [Normal(a[0])];
    }
  }

  /** Each key comes before the next. */
  ghost predicate Ascend(keys: seq<Text>) {
    forall i :: 0 < i < |keys| ==> Precedes(keys[i - 1], keys[i])
  }

  lemma SortedAscend(ms: seq<Member>)
    requires Distinct(Keys(ms))
    ensures Ascend(SortedKeys(ms))
  {
    var ks := SortedKeys(ms);
    SortOrdered(Keys(ms));
    forall i | 0 < i < |ks| ensures Precedes(ks[i - 1], ks[i]) {
      LeqPrecedes(ks[i - 1], ks[i]);
      KeysDiffer(Keys(ms), ks, i);
    }
  }

  lemma KeysDiffer(a: seq<Text>, b: seq<Text>, i: nat)
    requires Distinct(a) && multiset(a) == multiset(b) && 0 < i < |b|
    ensures b[i - 1] != b[i]
  {
    DistinctCount(a, b[i]);
    if b[i - 1] == b[i] { CountTwo(b, i); }
  }

  lemma CountTwo(b: seq<Text>, i: nat)
    requires 0 < i < |b| && b[i - 1] == b[i]
    ensures multiset(b)[b[i]] >= 2
  {
    assert b == b[..i - 1] + ([b[i - 1], b[i]] + b[i + 1..]);
  }

  lemma PairRead(k: Text, v: Json, x: Text)
    requires ReadValue(Canonicalize(v) + x) == Some((Normal(v), x))
    ensures ReadPair(Quoted(k) + ([COLON] + (Canonicalize(v) + x))) == Some((Member(k, Normal(v)), x))
  {
    var rest := [COLON] + (Canonicalize(v) + x);
    StringRead(k, rest);
    assert rest[1..] == Canonicalize(v) + x;
  }

  lemma AfterPairRead(ks: seq<Text>, ms: seq<Member>, x: Text)
    requires ks != [] && forall k :: k in ks ==> k in Keys(ms)
    ensures var t := AfterPair(ks, ms, x);
      if |ks| == 1 then Begins(t, '}') && t[1..] == x
      else !Begins(t, '}') && Begins(t, ',') && t[1..] == PairsThen(ks[1..], ms, x)
    ensures Delimited(AfterPair(ks, ms, x))
    ensures !Begins(PairsThen(ks, ms, x), '}')
  {
    PairsSplit(ks, ms, x);
  }

  lemma NormalPairsSplit(ks: seq<Text>, ms: seq<Member>)
    requires ks != [] && forall k :: k in ks ==> k in Keys(ms)
    ensures NormalPairs(ks, ms) ==
      [Member(ks[0], Normal(Get(ms, ks[0])))] + if |ks| == 1 then [] else NormalPairs(ks[1..], ms)
  {
  }

  lemma PairsStep(t: Text, m: Member, rest: Text, ms: seq<Member>, end: Text)
    requires ReadPair(t) == Some((m, rest)) && !Begins(rest, '}') && Begins(rest, ',')
    requires ReadPairs(rest[1..]) == Some((ms, end)) && ms != [] && Precedes(m.key, ms[0].key)
    ensures ReadPairs(t) == Some(([m] + ms, end))
  {
  }

  lemma {:induction false} PairsRead(ks: seq<Text>, ms: seq<Member>, x: Text)
    requires ks != [] && (forall k :: k in ks ==> k in Keys(ms)) && Ascend(ks)
    requires forall m :: m in ms ==> WellFormed(m.value)
    ensures ReadPairs(PairsThen(ks, ms, x)) == Some((NormalPairs(ks, ms), x))
    decreases ms, 0, |ks|
  {
    hide PairsThen, AfterPair, Canonicalize, Quoted, ReadPair, ReadValue, NormalPairs, Normal, Precedes, WellFormed;
    var v, rest := Get(ms, ks[0]), AfterPair(ks, ms, x);
    PairsSplit(ks, ms, x);
    AfterPairRead(ks, ms, x);
    NormalPairsSplit(ks, ms);
    ValueRead(v, rest);
    PairRead(ks[0], v, rest);
    if |ks| > 1 {
      AscendTail(ks);
      PairsRead(ks[1..], ms, x);
      PairsStep(PairsThen(ks, ms, x), Member(ks[0], Normal(v)), rest, NormalPairs(ks[1..], ms), x);
    } else {
      assert [Member(ks[0], Normal(v))] + [] == [Member(ks[0], Normal(v))];
    }
  }

  lemma AscendTail(ks: seq<Text>)
    requires |ks| > 1 && Ascend(ks)
    ensures Ascend(ks[1..]) && Precedes(ks[0], ks[1])
  {
    forall i | 0 < i < |ks[1..]| ensures Precedes(ks[1..][i - 1], ks[1..][i]) {
      assert Precedes(ks[i + 1 - 1], ks[i + 1]);
    }
  }

  /** For every value: its canonical text is read as the value with its keys in
      order at every depth. */
  lemma ReadsBack(v: Json)
    requires WellFormed(v)
    ensures ReadText(Canonicalize(v)) == Some(Normal(v))
  {
    assert Canonicalize(v) + [] == Canonicalize(v);
    ValueRead(v, []);
  }

  // ----- reading, then printing -----

  lemma HexWritten(u: Unit)
    requires HexValue(u).Some?
    ensures HexDigit(HexValue(u).value) == u
  {
  }

  lemma FourWritten(a: Unit, b: Unit, c: Unit, d: Unit, u: Unit)
    requires FourHex(a, b, c, d) == Some(u)
    ensures UnicodeEscape(u)[2..] == [a, b, c, d]
  {
    HexWritten(a);
    HexWritten(b);
    HexWritten(c);
    HexWritten(d);
    Digits(HexValue(a).value, HexValue(b).value, HexValue(c).value, HexValue(d).value);
  }

  lemma Digits(i: nat, j: nat, k: nat, l: nat)
    requires i < 16 && j < 16 && k < 16 && l < 16
    ensures var u := i * 0x1000 + j * 0x100 + k * 0x10 + l;
      u / 16 / 16 / 16 == i && u / 16 / 16 % 16 == j && u / 16 % 16 == k && u % 16 == l
  {
    var u := i * 0x1000 + j * 0x100 + k * 0x10 + l;
    assert u / 16 == i * 0x100 + j * 0x10 + k;
    assert u / 16 / 16 == i * 0x10 + j;
  }

  /** What was read as one unit was written as it is escaped; a surrogate pair was
      written as it is. */
  lemma CharWritten(t: Text, c: Text, rest: Text)
    requires ReadChar(t) == Some((c, rest)) && !Begins(t, '"')
    ensures |c| == 1 || (|c| == 2 && StartsWithPair(c))
    ensures t == (if |c| == 1 then EscapeUnit(c[0]) else c) + rest
  {
    if Begins(t, '\\') {
      EscapeWritten(t[1..], c, rest);
      assert t == [t[0]] + t[1..];
    } else if Leads(t[0]) {
      assert t == t[..2] + t[2..];
    } else {
      assert t == t[..1] + t[1..];
    }
  }

  lemma EscapeWritten(t: Text, c: Text, rest: Text)
    requires ReadEscape(t) == Some((c, rest))
    ensures |c| == 1 && [BACKSLASH] + t == EscapeUnit(c[0]) + rest
  {
    if ShortEscape(t[0]).Some? {
      assert t == [t[0]] + t[1..];
    } else {
      FourWritten(t[1], t[2], t[3], t[4], c[0]);
      assert UnicodeEscape(c[0]) == [BACKSLASH, t[0]] + [t[1], t[2], t[3], t[4]];
      assert t == [t[0]] + [t[1], t[2], t[3], t[4]] + t[5..];
    }
  }

  lemma {:induction false} CharsWritten(t: Text, s: Text, x: Text)
    requires ReadChars(t) == Some((s, x))
    ensures t == StringThen(s, x)
    decreases |t|
  {
    StringSplit(s, x);
    if Begins(t, '"') {
      assert t == [t[0]] + t[1..];
    } else {
      var (c, rest) := ReadChar(t).value;
      var (cs, end) := ReadChars(rest).value;
      CharWritten(t, c, rest);
      CharsWritten(rest, cs, x);
      assert s == c + cs && s[|c|..] == cs;
      if |c| == 2 { assert StartsWithPair(s) && Block(s) == c; }
    }
  }

  lemma StringWritten(t: Text, s: Text, x: Text)
    requires Begins(t, '"') && ReadChars(t[1..]) == Some((s, x))
    ensures t == Quoted(s) + x
  {
    CharsWritten(t[1..], s, x);
    QuotedThen(s, x);
    assert t == [t[0]] + t[1..];
  }

  /** Every key comes before all later ones. */
  ghost predicate Rising(keys: seq<Text>) {
    forall i, j :: 0 <= i < j < |keys| ==> Precedes(keys[i], keys[j])
  }

  lemma PrecedesTransitive(a: Text, b: Text, c: Text)
    requires Precedes(a, b) && Precedes(b, c)
    ensures Precedes(a, c) && a != c
  {
    LeqPrecedes(a, b);
    LeqPrecedes(b, c);
    LeqPrecedes(a, c);
    LeqTransitive(a, b, c);
    if a == c { LeqAntisymmetric(a, b); }
  }

  lemma RisingFront(k: Text, keys: seq<Text>)
    requires Rising(keys) && keys != [] && Precedes(k, keys[0])
    ensures Rising([k] + keys) && k !in keys
  {
    forall j | 0 <= j < |keys| ensures Precedes(k, keys[j]) && k != keys[j] {
      if j > 0 { PrecedesTransitive(k, keys[0], keys[j]); }
    }
  }

  lemma RisingSorted(ms: seq<Member>)
    requires Rising(Keys(ms))
    ensures Distinct(Keys(ms)) && SortedKeys(ms) == Keys(ms)
  {
    var ks := Keys(ms);
    forall i, j | 0 <= i < j < |ks| ensures Leq(ks[i], ks[j]) && ks[i] != ks[j] {
      LeqPrecedes(ks[i], ks[j]);
    }
    SortOrdered(ks);
    OrderedUnique(Sort(ks), ks);
  }

  lemma KeysFront(m: Member, ms: seq<Member>)
    ensures Keys([m] + ms) == [m.key] + Keys(ms)
  {
  }

  lemma GetTail(k: Text, m: Member, ms: seq<Member>)
    requires k in Keys(ms) && k != m.key
    ensures k in Keys([m] + ms) && Get([m] + ms, k) == Get(ms, k)
  {
    KeysFront(m, ms);
    assert ([m] + ms)[1..] == ms;
  }

  lemma {:induction false} PairsTailAlone(ks: seq<Text>, m: Member, ms: seq<Member>)
    requires m.key !in ks && forall k :: k in ks ==> k in Keys(ms)
    ensures forall k :: k in ks ==> k in Keys([m] + ms)
    ensures JoinPairs(ks, [m] + ms) == JoinPairs(ks, ms) && NormalPairs(ks, [m] + ms) == NormalPairs(ks, ms)
    decreases ks
  {
    KeysFront(m, ms);
    if ks != [] {
      GetTail(ks[0], m, ms);
      PairsTailAlone(ks[1..], m, ms);
    }
  }

  lemma HeadTail(t: Text, u: Text)
    requires t != [] && u != [] && t[0] == u[0] && t[1..] == u[1..]
    ensures t == u
  {
    assert t == [t[0]] + t[1..] && u == [u[0]] + u[1..];
  }

  lemma WordWritten(t: Text, v: Json, x: Text)
    requires (v.Null? || v.Bool?) && ReadValue(t) == Some((v, x))
    ensures t == Canonicalize(v) + x
  {
    if v == Bool(false) {
      assert t == t[..5] + t[5..];
    } else {
      assert t == t[..4] + t[4..];
    }
  }

  /** What is read was printed: the value read is in normal form, and its text and
      the rest are the input. */
  lemma {:induction false} ValueWritten(t: Text, v: Json, x: Text)
    requires ReadValue(t) == Some((v, x))
    ensures WellFormed(v) && Normal(v) == v && t == Canonicalize(v) + x
    decreases |t|, 0
  {
    match v
    case Num(n) => assert t == t[..NumberRun(t)] + t[NumberRun(t)..];
    case Str(s) => StringWritten(t, s, x);
    case Arr(items) =>
      ArrayThen(items, x);
      if items == [] {
        assert t[1..][1..] == x;
        HeadTail(t[1..], ItemsThen(items, x));
      } else {
        ItemsWritten(t[1..], items, x);
      }
      HeadTail(t, Canonicalize(v) + x);
    case Obj(ms) =>
      ObjectThen(ms, x);
      if ms == [] {
        assert t[1..][1..] == x;
        HeadTail(t[1..], PairsThen(SortedKeys(ms), ms, x));
      } else {
        PairsWritten(t[1..], ms, x);
        RisingSorted(ms);
      }
      HeadTail(t, Canonicalize(v) + x);
    case _ => WordWritten(t, v, x);
  }

  lemma {:induction false} ItemsWritten(t: Text, items: seq<Json>, x: Text)
    requires ReadItems(t) == Some((items, x))
    ensures t == ItemsThen(items, x) && NormalItems(items) == items && forall v :: v in items ==> WellFormed(v)
    decreases |t|, 1
  {
    var (v, rest) := ReadValue(t).value;
    ValueWritten(t, v, rest);
    ItemsSplit(items, x);
    AfterItemRead(items, x);
    NormalItemsSplit(items);
    if Begins(rest, ',') {
      var (vs, end) := ReadItems(rest[1..]).value;
      ItemsWritten(rest[1..], vs, x);
      assert items == [v] + vs && items[1..] == vs;
    } else {
      assert items == [v];
    }
    HeadTail(rest, AfterItem(items, x));
  }

  lemma {:induction false} PairsWritten(t: Text, ms: seq<Member>, x: Text)
    requires ReadPairs(t) == Some((ms, x))
    ensures Rising(Keys(ms)) && t == PairsThen(Keys(ms), ms, x) && NormalPairs(Keys(ms), ms) == ms
    ensures forall m :: m in ms ==> WellFormed(m.value)
    decreases |t|, 2
  {
    var (m, rest) := ReadPair(t).value;
    PairWritten(t, m, rest);
    PairsSplit(Keys(ms), ms, x);
    AfterPairRead(Keys(ms), ms, x);
    NormalPairsSplit(Keys(ms), ms);
    if Begins(rest, ',') {
      var (tail, end) := ReadPairs(rest[1..]).value;
      PairsWritten(rest[1..], tail, x);
      KeysFront(m, tail);
      RisingFront(m.key, Keys(tail));
      PairsTailAlone(Keys(tail), m, tail);
      assert ms == [m] + tail && Keys(ms)[1..] == Keys(tail);
    } else {
      assert ms == [m] && Keys(ms) == [m.key];
    }
    HeadTail(rest, AfterPair(Keys(ms), ms, x));
  }

  lemma PairWritten(t: Text, m: Member, x: Text)
    requires ReadPair(t) == Some((m, x))
    ensures WellFormed(m.value) && Normal(m.value) == m.value
    ensures t == Quoted(m.key) + ([COLON] + (Canonicalize(m.value) + x))
    decreases |t|, 1
  {
    var (k, rest) := ReadChars(t[1..]).value;
    StringWritten(t, k, rest);
    ValueWritten(rest[1..], m.value, x);
    HeadTail(rest, [COLON] + (Canonicalize(m.value) + x));
  }

  /** For every text: it is read exactly when it is the canonical text of some
      value, and then as the one value in normal form that has it. */
  lemma ReadsCanonicalOnly(t: Text)
    ensures ReadText(t).Some? <==> exists v :: WellFormed(v) && Canonicalize(v) == t
    ensures ReadText(t).Some? ==>
      var v := ReadText(t).value; WellFormed(v) && Normal(v) == v && Canonicalize(v) == t
  {
    if ReadText(t).Some? {
      var v := ReadText(t).value;
      ValueWritten(t, v, []);
      assert Canonicalize(v) + [] == Canonicalize(v);
    }
    forall v | WellFormed(v) && Canonicalize(v) == t ensures ReadText(t).Some? {
      ReadsBack(v);
    }
  }

  /** Putting a value in normal form changes no more than the order of keys and the
      three numbers without a text. */
  lemma NormalIsSame(v: Json)
    requires WellFormed(v)
    ensures WellFormed(Normal(v)) && Same(v, Normal(v))
  {
    ReadsBack(v);
    ReadsCanonicalOnly(Canonicalize(v));
    CanonicalTextDetermines(v, Normal(v));
  }

  /** The hash input is the method name, a colon, and a text that is read as the
      params; absent params as the empty object. */
  lemma HashInputReads(name: Text, params: Json)
    requires WellFormed(params)
    ensures var t := HashInput(name, params);
      && |t| > |name| && t[..|name|] == name && t[|name|] == ':' as int
      && ReadText(t[|name| + 1..]) == Some(if params == Null then Obj([]) else Normal(params))
  {
    ReadsBack(OrEmpty(params));
    var text := Canonicalize(OrEmpty(params));
    assert HashInput(name, params) == name + [COLON] + text;
    assert HashInput(name, params)[|name| + 1..] == text;
    if params == Null {
      assert Keys([]) == [] && Sort(Keys([])) == [];
      assert SortedKeys([]) == [];
    }
  }
}
