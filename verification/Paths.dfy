/** Normalised absolute paths as sequences of segments, and the separator-safe
    containment test that the file layer and the confinement layer share. */
module Paths {

  /** Not empty, without a separator, and neither `.` nor `..`. */
  predicate IsSegment(s: string) {
    s != "" && '/' !in s && s != "." && s != ".."
  }

  type Segment = s: string | IsSegment(s) witness "a"

  /** `[]` is the root directory. */
  type Path = seq<Segment>

  function RenderTail(p: Path): string {
    if p == [] then "" else "/" + p[0] + RenderTail(p[1..])
  }

  function Render(p: Path): string {
    if p == [] then "/" else RenderTail(p)
  }

  /** `target === root || target.startsWith(root + sep)`. */
  predicate Within(root: Path, target: Path) {
    Render(target) == Render(root) || Render(root) + "/" <= Render(target)
  }

  /** The length of the text before the first separator. */
  function Lead(t: string): nat {
    if t == "" || t[0] == '/' then 0 else 1 + Lead(t[1..])
  }

  predicate Boundary(t: string) { t == "" || t[0] == '/' }

  lemma {:induction false} LeadOf(x: string, r: string)
    requires '/' !in x && Boundary(r)
    ensures Lead(x + r) == |x|
  {
    if x == "" {
      assert x + r == r;
    } else {
      assert (x + r)[1..] == x[1..] + r;
      LeadOf(x[1..], r);
    }
  }

  /** A segment ends at the next separator or at the end of the text. */
  lemma SegmentEnds(x: string, y: string, r: string, t: string)
    requires '/' !in x && '/' !in y && Boundary(r) && Boundary(t) && x + r == y + t
    ensures x == y && r == t
  {
    LeadOf(x, r);
    LeadOf(y, t);
    assert x == (x + r)[..|x|] && y == (y + t)[..|y|];
    assert r == (x + r)[|x|..] && t == (y + t)[|y|..];
  }

  lemma TailStarts(p: Path)
    ensures Boundary(RenderTail(p)) && (RenderTail(p) == "" <==> p == [])
  {
  }

  /** Removing the text of `a` from the text of `b` at a separator removes segments. */
  lemma {:induction false} TailPrefix(a: Path, b: Path, u: string)
    requires Boundary(u) && RenderTail(a) + u == RenderTail(b)
    ensures a <= b && u == RenderTail(b[|a|..])
  {
    if a == [] {
      assert RenderTail(a) + u == u;
    } else {
      var r, t := RenderTail(a[1..]) + u, RenderTail(b[1..]);
      assert RenderTail(a) + u == "/" + (a[0] + r);
      TailStarts(a[1..]);
      TailStarts(b[1..]);
      assert RenderTail(b) == "/" + (b[0] + t);
      assert (RenderTail(a) + u)[1..] == a[0] + r && RenderTail(b)[1..] == b[0] + t;
      SegmentEnds(a[0], b[0], r, t);
      TailPrefix(a[1..], b[1..], u);
      assert a == [a[0]] + a[1..] && b == [b[0]] + b[1..];
      assert b[|a|..] == b[1..][|a| - 1..];
    }
  }

  lemma {:induction false} TailConcat(a: Path, b: Path)
    ensures RenderTail(a + b) == RenderTail(a) + RenderTail(b)
  {
    if a == [] {
      assert a + b == b;
    } else {
      assert (a + b)[1..] == a[1..] + b;
      TailConcat(a[1..], b);
      assert RenderTail(a) == "/" + a[0] + RenderTail(a[1..]);
    }
  }

  lemma BelowRoot(target: Path)
    requires target != []
    ensures !Within([], target) && !Within(target, [])
  {
    assert Render(target) == "/" + target[0] + RenderTail(target[1..]);
    assert Render(target)[1] == target[0][0] != '/';
  }

  lemma WithinTail(root: Path, target: Path)
    requires root != [] && target != []
    ensures Within(root, target) <==> root <= target
  {
    var x, y := RenderTail(root), RenderTail(target);
    if root <= target {
      var rest := target[|root|..];
      assert target == root + rest;
      TailConcat(root, rest);
      TailStarts(rest);
      if rest != [] { assert RenderTail(rest) == "/" + RenderTail(rest)[1..]; }
    }
    if Within(root, target) {
      var u := y[|x|..];
      assert x + u == y;
      TailPrefix(root, target, u);
    }
  }

  /** The text test is containment of segments, except that nothing but the root
      directory is within the root directory. */
  lemma WithinIsPrefix(root: Path, target: Path)
    ensures Within(root, target) <==> if root == [] then target == [] else root <= target
  {
    if root != [] && target != [] {
      WithinTail(root, target);
    } else if root != target {
      BelowRoot(if root == [] then target else root);
    }
  }

  /** Two paths above a third are above one another. */
  lemma BothPrefixes(a: Path, b: Path, p: Path)
    requires a <= p && b <= p
    ensures a <= b || b <= a
  {
    if |a| <= |b| { assert a == p[..|a|] == b[..|a|]; } else { assert b == p[..|b|] == a[..|b|]; }
  }
}
