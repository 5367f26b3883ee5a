/** ECMAScript strings as sequences of UTF-16 code units, with the order that
    `Array.prototype.sort` uses when it is given no comparator. */
module Utf16 {
  import opened Sequences

  type Unit = u: int | 0 <= u < 0x1_0000
  type Text = seq<Unit>

  /** Lexicographic order on code units. */
  predicate Leq(a: Text, b: Text) {
    a == [] || (b != [] && (a[0] < b[0] || (a[0] == b[0] && Leq(a[1..], b[1..]))))
  }

  lemma {:induction false} LeqTotal(a: Text, b: Text)
    ensures Leq(a, b) || Leq(b, a)
  {
    if a != [] && b != [] && a[0] == b[0] {
      LeqTotal(a[1..], b[1..]);
    }
  }

  lemma {:induction false} LeqAntisymmetric(a: Text, b: Text)
    requires Leq(a, b) && Leq(b, a)
    ensures a == b
  {
    if a != [] {
      LeqAntisymmetric(a[1..], b[1..]);
      assert a == [a[0]] + a[1..] && b == [b[0]] + b[1..];
    }
  }

  lemma {:induction false} LeqTransitive(a: Text, b: Text, c: Text)
    requires Leq(a, b) && Leq(b, c)
    ensures Leq(a, c)
  {
    if a != [] && a[0] == b[0] && b[0] == c[0] {
      LeqTransitive(a[1..], b[1..], c[1..]);
    }
  }

  /** `a` comes before `b`: it ends first, or has the smaller unit where they first
      differ. */
  predicate Precedes(a: Text, b: Text) {
    exists i :: 0 <= i < |b| && i <= |a| && a[..i] == b[..i] && (i == |a| || a[i] < b[i])
  }

  lemma {:induction false} LeqPrecedes(a: Text, b: Text)
    ensures Leq(a, b) <==> a == b || Precedes(a, b)
  {
    if a == [] {
      if b != [] { assert a[..0] == b[..0]; }
    } else if b != [] && a[0] == b[0] {
      LeqPrecedes(a[1..], b[1..]);
      PrecedesTail(a, b);
      assert a == [a[0]] + a[1..] && b == [b[0]] + b[1..];
    } else if b != [] && a[0] < b[0] {
      assert a[..0] == b[..0];
    } else if b != [] {
      if Precedes(a, b) { PrecedesHead(a, b); }
    }
  }

  lemma PrecedesHead(a: Text, b: Text)
    requires a != [] && b != [] && Precedes(a, b)
    ensures a[0] <= b[0]
  {
    var i :| 0 <= i < |b| && i <= |a| && a[..i] == b[..i] && (i == |a| || a[i] < b[i]);
    if i > 0 { assert a[0] == a[..i][0] == b[..i][0] == b[0]; }
  }

  lemma PrecedesTail(a: Text, b: Text)
    requires a != [] && b != [] && a[0] == b[0]
    ensures Precedes(a, b) <==> Precedes(a[1..], b[1..])
  {
    if Precedes(a, b) {
      var i :| 0 <= i < |b| && i <= |a| && a[..i] == b[..i] && (i == |a| || a[i] < b[i]);
      assert i > 0;
      assert a[1..][..i - 1] == a[1..i] == a[..i][1..] == b[..i][1..] == b[1..i] == b[1..][..i - 1];
    }
    if Precedes(a[1..], b[1..]) {
      var c, d := a[1..], b[1..];
      var i :| 0 <= i < |d| && i <= |c| && c[..i] == d[..i] && (i == |c| || c[i] < d[i]);
      assert a[..i + 1] == [a[0]] + c[..i] == [b[0]] + d[..i] == b[..i + 1];
    }
  }

  ghost predicate Ordered(s: seq<Text>) {
    forall i, j :: 0 <= i < j < |s| ==> Leq(s[i], s[j])
  }

  function Insert(x: Text, s: seq<Text>): (r: seq<Text>)
    ensures multiset(r) == multiset(s) + multiset{x}
  {
    if s == [] then [x]
    else if Leq(x, s[0]) then [x] + s
    else
      assert s == [s[0]] + s[1..];
      [s[0]] + Insert(x, s[1..])
  }

  /** `ids.sort()`: the stable sort by code units. */
  function Sort(s: seq<Text>): (r: seq<Text>)
    ensures multiset(r) == multiset(s)
  {
    if s == [] then []
    else
      assert s == [s[0]] + s[1..];
      Insert(s[0], Sort(s[1..]))
  }

  lemma {:induction false} InsertOrdered(x: Text, s: seq<Text>)
    requires Ordered(s)
    ensures Ordered(Insert(x, s))
  {
    if s != [] {
      if Leq(x, s[0]) {
        forall j | 0 <= j < |s| ensures Leq(x, s[j]) {
          if j > 0 { LeqTransitive(x, s[0], s[j]); }
        }
      } else {
        LeqTotal(x, s[0]);
        InsertOrdered(x, s[1..]);
        var t := Insert(x, s[1..]);
        forall j | 0 <= j < |t| ensures Leq(s[0], t[j]) {
          assert t[j] in multiset(t);
          assert t[j] == x || t[j] in multiset(s[1..]);
        }
      }
    }
  }

  lemma {:induction false} SortOrdered(s: seq<Text>)
    ensures Ordered(Sort(s))
  {
    if s != [] {
      SortOrdered(s[1..]);
      InsertOrdered(s[0], Sort(s[1..]));
    }
  }

  lemma HeadIsLeast(a: seq<Text>, x: Text)
    requires Ordered(a) && x in multiset(a)
    ensures Leq(a[0], x)
  {
    LeqTotal(x, x);
  }

  /** An ordered sequence is determined by its contents. */
  lemma {:induction false} OrderedUnique(a: seq<Text>, b: seq<Text>)
    requires Ordered(a) && Ordered(b) && multiset(a) == multiset(b)
    ensures a == b
    decreases a, 1
  {
    assert |a| == |multiset(a)| == |b|;
    if a != [] {
      assert a[0] in multiset(a) && b[0] in multiset(b);
      HeadIsLeast(a, b[0]);
      HeadIsLeast(b, a[0]);
      LeqAntisymmetric(a[0], b[0]);
      TailUnique(a, b);
    }
  }

  lemma {:induction false} TailUnique(a: seq<Text>, b: seq<Text>)
    requires a != [] && b != [] && a[0] == b[0]
    requires Ordered(a) && Ordered(b) && multiset(a) == multiset(b)
    ensures a == b
    decreases a, 0
  {
    assert a == [a[0]] + a[1..] && b == [b[0]] + b[1..];
    assert multiset(a[1..]) == multiset(a) - multiset{a[0]};
    assert multiset(b[1..]) == multiset(b) - multiset{b[0]};
    OrderedUnique(a[1..], b[1..]);
  }

  /** Sorting forgets the order of its input and nothing else. */
  lemma SortCanonical(a: seq<Text>, b: seq<Text>)
    ensures Sort(a) == Sort(b) <==> multiset(a) == multiset(b)
  {
    SortOrdered(a);
    SortOrdered(b);
    if multiset(a) == multiset(b) {
      OrderedUnique(Sort(a), Sort(b));
    }
  }

  // ----- trim -----

  /** The white space and line terminators that `trim` removes. */
  predicate Space(u: Unit) {
    || 0x09 <= u <= 0x0D || 0x2000 <= u <= 0x200A
    || u in {0x20, 0xA0, 0x1680, 0x2028, 0x2029, 0x202F, 0x205F, 0x3000, 0xFEFF}
  }

  function TrimStart(t: Text): (r: Text)
    ensures r == [] || !Space(r[0])
  {
    if t == [] || !Space(t[0]) then t else TrimStart(t[1..])
  }

  function TrimEnd(t: Text): (r: Text)
    ensures r <= t && (r == [] || !Space(r[|r| - 1]))
  {
    if t == [] || !Space(t[|t| - 1]) then t else TrimEnd(t[..|t| - 1])
  }

  function Trim(t: Text): (r: Text)
    ensures r == [] || (!Space(r[0]) && !Space(r[|r| - 1]))
  {
    TrimEnd(TrimStart(t))
  }

  ghost predicate AllSpace(t: Text) {
    forall i :: 0 <= i < |t| ==> Space(t[i])
  }

  lemma {:induction false} TrimStartRemoves(t: Text) returns (front: Text)
    ensures t == front + TrimStart(t) && AllSpace(front)
  {
    if t == [] || !Space(t[0]) {
      front := [];
    } else {
      var rest := TrimStartRemoves(t[1..]);
      front := [t[0]] + rest;
      assert t == [t[0]] + t[1..] && TrimStart(t) == TrimStart(t[1..]);
      Associative([t[0]], rest, TrimStart(t[1..]));
    }
  }

  lemma {:induction false} TrimEndRemoves(t: Text) returns (back: Text)
    ensures t == TrimEnd(t) + back && AllSpace(back)
  {
    if t == [] || !Space(t[|t| - 1]) {
      back := [];
    } else {
      var init, last := t[..|t| - 1], t[|t| - 1];
      var rest := TrimEndRemoves(init);
      back := rest + [last];
      assert t == init + [last] && TrimEnd(t) == TrimEnd(init);
      Associative(TrimEnd(init), rest, [last]);
    }
  }

  /** `trim` takes white space off both ends, nothing else, and all that is there. */
  lemma TrimRemoves(t: Text) returns (front: Text, back: Text)
    ensures t == front + Trim(t) + back && AllSpace(front) && AllSpace(back)
    ensures Trim(t) == [] || (!Space(Trim(t)[0]) && !Space(Trim(t)[|Trim(t)| - 1]))
  {
    front := TrimStartRemoves(t);
    back := TrimEndRemoves(TrimStart(t));
    Associative(front, Trim(t), back);
  }

  /** White space as ECMA-262 lists it: tab, line tabulation, form feed, the byte order
      mark and the space separators, and the four line terminators. */
  lemma SpaceUnits(u: Unit)
    ensures Space(u) <==>
      u in {0x0009, 0x000A, 0x000B, 0x000C, 0x000D, 0x0020, 0x00A0, 0x1680, 0x2000, 0x2001, 0x2002, 0x2003, 0x2004,
            0x2005, 0x2006, 0x2007, 0x2008, 0x2009, 0x200A, 0x2028, 0x2029, 0x202F, 0x205F, 0x3000, 0xFEFF}
  {
  }
}
