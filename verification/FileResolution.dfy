/** Resolving a caller's file path against a registered root: `resolveInRoot`
    over a file system tree with symbolic links, and the lexical `gitRelPath`. */
module FileResolution {
  import opened Options
  import opened Paths

  /** A component of a raw path; `.` and `..` are allowed. */
  type Word = s: string | s != "" && '/' !in s witness "a"

  // ----- the file system -----

  datatype Node = Dir | File | Symlink(absolute: bool, target: seq<Word>)

  /** Every node by its canonical path; "/" is always a directory. */
  type FileSystem = map<Path, Node>

  datatype Lookup = Found(path: Path) | NoEntry | OtherError

  /** How many links a resolution follows before it gives up. */
  const MAX_LINKS: nat := 40

  function Parent(p: Path): Path {
    if p == [] then [] else p[..|p| - 1]
  }

  /** Walk `todo` from the directory `at`, following every link. */
  function Follow(fs: FileSystem, at: Path, todo: seq<Word>, links: nat): Lookup
    decreases links, |todo|
  {
    if todo == [] then Found(at)
    else
      var w, rest := todo[0], todo[1..];
      if w == "." then Follow(fs, at, rest, links)
      else if w == ".." then Follow(fs, Parent(at), rest, links)
      else
        var child: Path := at + [w];
        if child !in fs then NoEntry
        else match fs[child]
          case Dir => Follow(fs, child, rest, links)
          case File => if rest == [] then Found(child) else OtherError
          case Symlink(absolute, target) =>
            if links == 0 then OtherError
            else Follow(fs, if absolute then [] else at, target + rest, links - 1)
  }

  /** `realpath`. */
  function RealPath(fs: FileSystem, words: seq<Word>): Lookup {
    Follow(fs, [], words, MAX_LINKS)
  }

  datatype Stat = Exists | Absent | StatError

  /** `lstat`: the last component is not followed. */
  function LStat(fs: FileSystem, words: seq<Word>): Stat {
    if words == [] then Exists
    else
      var last := words[|words| - 1];
      if last == "." || last == ".." then
        match RealPath(fs, words) case Found(_) => Exists case NoEntry => Absent case OtherError => StatError
      else match RealPath(fs, words[..|words| - 1])
        case Found(d) =>
          if d != [] && d in fs && fs[d].File? then StatError else if d + [last] in fs then Exists else Absent
        case NoEntry => Absent
        case OtherError => StatError
  }

  /** No component of the path is a link: it is where the file really is. */
  ghost predicate Canonical(fs: FileSystem, p: Path) {
    && (p != [] ==> p in fs && !fs[p].Symlink?)
    && forall i :: 0 < i < |p| ==> p[..i] in fs && fs[p[..i]] == Dir
  }

  ghost predicate Directory(fs: FileSystem, p: Path) {
    Canonical(fs, p) && (p != [] ==> fs[p] == Dir)
  }

  lemma DirectoryParent(fs: FileSystem, p: Path)
    requires Directory(fs, p)
    ensures Directory(fs, Parent(p))
  {
    forall i | 0 < i < |Parent(p)| ensures Parent(p)[..i] in fs && fs[Parent(p)[..i]] == Dir {
      assert Parent(p)[..i] == p[..i];
    }
  }

  lemma ChildCanonical(fs: FileSystem, at: Path, child: Path)
    requires Directory(fs, at) && |child| == |at| + 1 && child[..|at|] == at && child in fs && !fs[child].Symlink?
    ensures Canonical(fs, child)
  {
    forall i | 0 < i < |child| ensures child[..i] in fs && fs[child[..i]] == Dir {
      assert child[..i] == at[..i];
      if i == |at| { assert at[..i] == at; }
    }
  }

  /** `realpath` answers with a canonical path. */
  lemma {:induction false} FollowCanonical(fs: FileSystem, at: Path, todo: seq<Word>, links: nat)
    requires Directory(fs, at)
    ensures Follow(fs, at, todo, links).Found? ==> Canonical(fs, Follow(fs, at, todo, links).path)
    decreases links, |todo|
  {
    if todo != [] {
      var w, rest := todo[0], todo[1..];
      if w == "." {
        FollowCanonical(fs, at, rest, links);
      } else if w == ".." {
        DirectoryParent(fs, at);
        FollowCanonical(fs, Parent(at), rest, links);
      } else {
        var child: Path := at + [w];
        if child in fs {
          match fs[child]
          case Dir =>
            ChildCanonical(fs, at, child);
            FollowCanonical(fs, child, rest, links);
          case File => ChildCanonical(fs, at, child);
          case Symlink(absolute, target) =>
            if links > 0 { FollowCanonical(fs, if absolute then [] else at, target + rest, links - 1); }
        }
      }
    }
  }

  function Words(p: Path): (ws: seq<Word>)
    ensures |ws| == |p| && forall i :: 0 <= i < |p| ==> ws[i] == p[i]
  {
    seq(|p|, i requires 0 <= i < |p| => p[i])
  }

  lemma {:induction false} FollowPlain(fs: FileSystem, p: Path, n: nat, links: nat)
    requires Canonical(fs, p) && n <= |p|
    ensures n < |p| || n == 0 ==> Follow(fs, p[..n], Words(p)[n..], links) == Found(p)
    decreases |p| - n
  {
    if n < |p| {
      var child: Path := p[..n] + [Words(p)[n]];
      assert child == p[..n + 1] && Words(p)[n..][1..] == Words(p)[n + 1..];
      if n + 1 == |p| {
        assert p[..n + 1] == p && Words(p)[n + 1..] == [];
      } else {
        FollowPlain(fs, p, n + 1, links);
      }
    }
  }

  /** A canonical path resolves to itself. */
  lemma CanonicalIsFixed(fs: FileSystem, p: Path)
    requires Canonical(fs, p)
    ensures RealPath(fs, Words(p)) == Found(p)
  {
    FollowPlain(fs, p, 0, MAX_LINKS);
    assert Words(p)[0..] == Words(p) && p[..0] == [];
  }

  // ----- lexical operations -----

  /** `path.resolve(at, words)`. */
  function Normalize(at: Path, words: seq<Word>): Path
    decreases words
  {
    if words == [] then at
    else if words[0] == "." then Normalize(at, words[1..])
    else if words[0] == ".." then Normalize(Parent(at), words[1..])
    else Normalize(at + [words[0]], words[1..])
  }

  function Common(a: Path, b: Path): (n: nat)
    ensures n <= |a| && n <= |b| && a[..n] == b[..n]
    ensures n < |a| && n < |b| ==> a[n] != b[n]
  {
    if a == [] || b == [] || a[0] != b[0] then 0 else 1 + Common(a[1..], b[1..])
  }

  function Ups(n: nat): (ws: seq<Word>)
    ensures |ws| == n && forall i :: 0 <= i < n ==> ws[i] == ".."
  {
    seq(n, _ => "..")
  }

  /** `path.relative(from, to)`, as words; empty when they are equal. */
  function Relative(from: Path, to: Path): seq<Word> {
    var n := Common(from, to);
    Ups(|from| - n) + Words(to[n..])
  }

  /** A caller's path after `~` has been expanded. */
  datatype Raw = Raw(absolute: bool, words: seq<Word>)

  /** An absolute path is kept as it is; a relative one is resolved lexically. */
  function Absolute(root: Path, raw: Raw): seq<Word> {
    if raw.absolute then raw.words else Words(Normalize(root, raw.words))
  }

  function RawText(words: seq<Word>): string {
    if words == [] then "/" else if |words| == 1 then "/" + words[0] else "/" + words[0] + RawText(words[1..])
  }

  predicate RawWithin(root: Path, words: seq<Word>) {
    RawText(words) == Render(root) || Render(root) + "/" <= RawText(words)
  }

  // ----- resolveInRoot -----

  datatype Failure = FileNotFound | ParentMissing | Escapes | NeverBound | Unresolvable

  datatype Resolution = Resolved(path: Path) | ConfinedMissing | Failed(why: Failure)

  /** The longest prefix that exists, found by dropping last components. */
  function Nearest(fs: FileSystem, words: seq<Word>): (r: Option<seq<Word>>)
    ensures r.Some? ==> r.value <= words
  {
    match LStat(fs, words)
    case Exists => Some(words)
    case StatError => None
    case Absent => Nearest(fs, words[..|words| - 1])
  }

  function ResolveMissing(fs: FileSystem, root: Path, abs: seq<Word>, forbidden: Path -> bool): Resolution {
    if !RawWithin(root, abs) then Failed(Escapes)
    else match Nearest(fs, abs)
      case None => Failed(Unresolvable)
      case Some(ancestor) =>
        match RealPath(fs, ancestor)
        case Found(p) =>
          if !Within(root, p) then Failed(Escapes)
          else if forbidden(Normalize(p, abs[|ancestor|..])) then Failed(NeverBound)
          else if ancestor == abs then Resolved(p) else ConfinedMissing
        case _ => Failed(Unresolvable)
  }

  /** `path.join(dir, name)`; the base name of "/" is empty. */
  function JoinBase(dir: Path, abs: seq<Word>): Path {
    if abs == [] then dir else Normalize(dir, [abs[|abs| - 1]])
  }

  /** `later` is the file system by the time a missing file's ancestors are probed. */
  function Resolve(fs: FileSystem, later: FileSystem, root: Path, raw: Raw, mustExist: bool, allowMissing: bool,
      forbidden: Path -> bool): Resolution {
    var abs := Absolute(root, raw);
    if mustExist then
      match RealPath(fs, abs)
      case Found(p) =>
        if !Within(root, p) then Failed(Escapes) else if forbidden(p) then Failed(NeverBound) else Resolved(p)
      case NoEntry => if allowMissing then ResolveMissing(later, root, abs, forbidden) else Failed(FileNotFound)
      case OtherError => Failed(FileNotFound)
    else
      match RealPath(fs, if abs == [] then [] else abs[..|abs| - 1])
      case Found(d) =>
        if !Within(root, d) then Failed(Escapes)
        else
          var target := JoinBase(d, abs);
          if forbidden(target) then Failed(NeverBound) else Resolved(target)
      case _ => Failed(ParentMissing)
  }

  method ResolveInRoot(fs: FileSystem, later: FileSystem, root: Path, raw: Raw, mustExist: bool, allowMissing: bool,
                       forbidden: Path -> bool)
    returns (result: Resolution)
    ensures result == Resolve(fs, later, root, raw, mustExist, allowMissing, forbidden)
  {
    var abs := Absolute(root, raw);
    if mustExist {
      var found := RealPath(fs, abs);
      if !found.Found? {
        if !allowMissing || found != NoEntry { return Failed(FileNotFound); }
        if !RawWithin(root, abs) { return Failed(Escapes); }
        var ancestor := abs;
        // The walk ends at "/" at the latest, which always exists.
        while LStat(later, ancestor) != Exists
          invariant ancestor <= abs && Nearest(later, ancestor) == Nearest(later, abs)
          decreases |ancestor|
        {
          if LStat(later, ancestor) != Absent { return Failed(Unresolvable); }
          ancestor := ancestor[..|ancestor| - 1];
        }
        var nearest := RealPath(later, ancestor);
        if !nearest.Found? { return Failed(Unresolvable); }
        if !Within(root, nearest.path) { return Failed(Escapes); }
        if forbidden(Normalize(nearest.path, abs[|ancestor|..])) { return Failed(NeverBound); }
        return if ancestor == abs then Resolved(nearest.path) else ConfinedMissing;
      }
      if !Within(root, found.path) { return Failed(Escapes); }
      if forbidden(found.path) { return Failed(NeverBound); }
      return Resolved(found.path);
    }
    var parent := RealPath(fs, if abs == [] then [] else abs[..|abs| - 1]);
    if !parent.Found? { return Failed(ParentMissing); }
    if !Within(root, parent.path) { return Failed(Escapes); }
    var target := JoinBase(parent.path, abs);
    if forbidden(target) { return Failed(NeverBound); }
    result := Resolved(target);
  }

  // ----- properties -----

  /** Reading: the path returned is the canonical place of the file asked for,
      contains no link, and lies within the root, in the file system as it was
      when the file was found. */
  lemma ExistingIsInside(fs: FileSystem, later: FileSystem, root: Path, raw: Raw, allowMissing: bool,
      forbidden: Path -> bool)
    requires root != [] && Resolve(fs, later, root, raw, true, allowMissing, forbidden).Resolved?
    ensures var p := Resolve(fs, later, root, raw, true, allowMissing, forbidden).path;
      var now := if RealPath(fs, Absolute(root, raw)).Found? then fs else later;
      && root <= p && Canonical(now, p) && !forbidden(p)
      && RealPath(now, Absolute(root, raw)) == Found(p) && RealPath(now, Words(p)) == Found(p)
  {
    var p := Resolve(fs, later, root, raw, true, allowMissing, forbidden).path;
    var abs := Absolute(root, raw);
    var now := if RealPath(fs, abs).Found? then fs else later;
    WithinIsPrefix(root, p);
    if !RealPath(fs, abs).Found? { assert abs[|abs|..] == []; }
    FollowCanonical(now, [], abs, MAX_LINKS);
    CanonicalIsFixed(now, p);
  }

  lemma {:induction false} NearestIsLongest(fs: FileSystem, words: seq<Word>, n: nat)
    requires Nearest(fs, words).Some?
    ensures var a := Nearest(fs, words).value;
      a <= words && LStat(fs, a) == Exists && (|a| < n <= |words| ==> LStat(fs, words[..n]) == Absent)
    decreases words
  {
    if LStat(fs, words) != Exists {
      var init := words[..|words| - 1];
      NearestIsLongest(fs, init, n);
      if n < |words| { assert init[..n] == words[..n]; } else if n == |words| { assert words[..n] == words; }
    }
  }

  /** A missing file is reported as missing only when its nearest existing
      ancestor resolves inside the root, to a path free of links. */
  lemma MissingIsConfined(fs: FileSystem, later: FileSystem, root: Path, raw: Raw, forbidden: Path -> bool)
    returns (ancestor: seq<Word>)
    requires root != [] && Resolve(fs, later, root, raw, true, true, forbidden).ConfinedMissing?
    ensures var abs := Absolute(root, raw);
      && RealPath(fs, abs) == NoEntry && ancestor <= abs && |ancestor| < |abs|
      && LStat(later, ancestor) == Exists && (forall n :: |ancestor| < n <= |abs| ==> LStat(later, abs[..n]) == Absent)
      && RealPath(later, ancestor).Found?
      && root <= RealPath(later, ancestor).path && Canonical(later, RealPath(later, ancestor).path)
  {
    var abs := Absolute(root, raw);
    ancestor := Nearest(later, abs).value;
    forall n | |ancestor| < n <= |abs| ensures LStat(later, abs[..n]) == Absent { NearestIsLongest(later, abs, n); }
    NearestIsLongest(later, abs, 0);
    FollowCanonical(later, [], ancestor, MAX_LINKS);
    WithinIsPrefix(root, RealPath(later, ancestor).path);
  }

  lemma NormalizeOne(at: Path, w: Word)
    ensures Normalize(at, [w]) == if w == "." then at else if w == ".." then Parent(at) else at + [w]
  {
    var one: seq<Word> := [w];
    assert one[1..] == [];
  }

  /** Where the parent of the target resolves to. */
  function ParentLookup(fs: FileSystem, abs: seq<Word>): Lookup {
    RealPath(fs, if abs == [] then [] else abs[..|abs| - 1])
  }

  /** Writing: the parent is a canonical path within the root, and the target is
      inside too except in one case, a last component `..` under the root itself. */
  lemma WrittenIsInsideIff(fs: FileSystem, root: Path, raw: Raw, forbidden: Path -> bool)
    requires root != [] && Resolve(fs, fs, root, raw, false, false, forbidden).Resolved?
    ensures var abs, t := Absolute(root, raw), Resolve(fs, fs, root, raw, false, false, forbidden).path;
      && ParentLookup(fs, abs).Found? && root <= ParentLookup(fs, abs).path && Canonical(fs, ParentLookup(fs, abs).path)
      && (root <= t <==> !(abs != [] && abs[|abs| - 1] == ".." && ParentLookup(fs, abs) == Found(root)))
      && (abs != [] && abs[|abs| - 1] !in {".", ".."} ==> t == ParentLookup(fs, abs).path + [abs[|abs| - 1]])
  {
    var abs := Absolute(root, raw);
    var d := ParentLookup(fs, abs).path;
    WithinIsPrefix(root, d);
    FollowCanonical(fs, [], if abs == [] then [] else abs[..|abs| - 1], MAX_LINKS);
    if abs != [] {
      var last := abs[|abs| - 1];
      NormalizeOne(d, last);
      if last == ".." && d != root {
        assert root <= Parent(d);
      }
    }
  }

  /** A relative path never meets that case. */
  lemma RelativeIsInside(fs: FileSystem, root: Path, words: seq<Word>, forbidden: Path -> bool)
    requires root != [] && Resolve(fs, fs, root, Raw(false, words), false, false, forbidden).Resolved?
    ensures root <= Resolve(fs, fs, root, Raw(false, words), false, false, forbidden).path
  {
    WrittenIsInsideIff(fs, root, Raw(false, words), forbidden);
  }

  /** An absolute path ending in `..` does: it names the parent of the root. */
  lemma DotDotNamesParent(fs: FileSystem, root: Path)
    requires root != [] && Directory(fs, root)
    ensures Resolve(fs, fs, root, Raw(true, Words(root) + [".."]), false, false, _ => false) == Resolved(Parent(root))
  {
    var abs: seq<Word> := Words(root) + [".."];
    assert abs[..|abs| - 1] == Words(root);
    CanonicalIsFixed(fs, root);
    WithinIsPrefix(root, root);
    NormalizeOne(root, "..");
  }

  // ----- every answer, for a root other than the root directory -----

  /** A path to read that resolves: refused outside the root and on a never-bound
      path, and otherwise answered with the place it resolves to. */
  lemma ReadAnswers(fs: FileSystem, later: FileSystem, root: Path, raw: Raw, allowMissing: bool,
      forbidden: Path -> bool, p: Path)
    requires root != [] && RealPath(fs, Absolute(root, raw)) == Found(p)
    ensures Resolve(fs, later, root, raw, true, allowMissing, forbidden) ==
      if !(root <= p) then Failed(Escapes) else if forbidden(p) then Failed(NeverBound) else Resolved(p)
  {
    WithinIsPrefix(root, p);
  }

  /** One that does not resolve is not found, unless it is absent and may be: then it
      must be in the root as it is written, and the longest part of it that exists
      must resolve in the root, with no never-bound path at the whole of it. */
  lemma MissingAnswers(fs: FileSystem, later: FileSystem, root: Path, raw: Raw, allowMissing: bool,
      forbidden: Path -> bool)
    requires root != [] && !RealPath(fs, Absolute(root, raw)).Found?
    ensures var abs := Absolute(root, raw);
      var ancestor := Nearest(later, abs);
      Resolve(fs, later, root, raw, true, allowMissing, forbidden) ==
        if !allowMissing || RealPath(fs, abs) != NoEntry then Failed(FileNotFound)
        else if !RawWithin(root, abs) then Failed(Escapes)
        else if ancestor == None || !RealPath(later, ancestor.value).Found? then Failed(Unresolvable)
        else
          var p := RealPath(later, ancestor.value).path;
          if !(root <= p) then Failed(Escapes)
          else if forbidden(Normalize(p, abs[|ancestor.value|..])) then Failed(NeverBound)
          else if ancestor.value == abs then Resolved(p) else ConfinedMissing
  {
    var ancestor := Nearest(later, Absolute(root, raw));
    if ancestor.Some? && RealPath(later, ancestor.value).Found? {
      WithinIsPrefix(root, RealPath(later, ancestor.value).path);
    }
  }

  /** A path to write: its directory must resolve in the root, the last component is
      added to it as it is written, and a never-bound target is refused. */
  lemma WriteAnswers(fs: FileSystem, later: FileSystem, root: Path, raw: Raw, allowMissing: bool,
      forbidden: Path -> bool)
    requires root != []
    ensures var abs := Absolute(root, raw);
      Resolve(fs, later, root, raw, false, allowMissing, forbidden) ==
        match RealPath(fs, if abs == [] then [] else abs[..|abs| - 1])
        case Found(d) =>
          var target: Path :=
            if abs == [] || abs[|abs| - 1] == "." then d
            else if abs[|abs| - 1] == ".." then (if d == [] then [] else d[..|d| - 1])
            else d + [abs[|abs| - 1]];
          if !(root <= d) then Failed(Escapes)
          else if forbidden(target) then Failed(NeverBound) else Resolved(target)
        case _ => Failed(ParentMissing)
  {
    var abs := Absolute(root, raw);
    if ParentLookup(fs, abs).Found? {
      WithinIsPrefix(root, ParentLookup(fs, abs).path);
      if abs != [] { NormalizeOne(ParentLookup(fs, abs).path, abs[|abs| - 1]); }
    }
  }

  // ----- the file system itself -----

  /** A link leads where its target leads, from the root directory or from where the
      link is; here to a path without links. */
  lemma LinkLeads(fs: FileSystem, at: Path, name: Segment, absolute: bool, target: Path, links: nat)
    requires at + [name] in fs && fs[at + [name]] == Symlink(absolute, Words(target)) && links > 0
    requires Canonical(fs, if absolute then target else at + target)
    ensures Follow(fs, at, [name], links) == Found(if absolute then target else at + target)
  {
    var word: seq<Word> := [name];
    assert word[1..] == [] && Words(target) + word[1..] == Words(target);
    if absolute {
      FollowPlain(fs, target, 0, links - 1);
      assert Words(target)[0..] == Words(target) && target[..0] == [];
    } else {
      FollowRest(fs, at, target, links - 1);
    }
  }

  lemma FollowRest(fs: FileSystem, at: Path, below: Path, links: nat)
    requires Canonical(fs, at + below)
    ensures Follow(fs, at, Words(below), links) == Found(at + below)
  {
    var p := at + below;
    assert p[..|at|] == at && Words(p)[|at|..] == Words(below);
    if below == [] {
      assert p == at && Words(below) == [];
    } else {
      FollowPlain(fs, p, |at|, links);
    }
  }

  /** One component at a time: what is not there is absent, a directory is entered,
      and a file ends the path. */
  lemma FollowStep(fs: FileSystem, at: Path, name: Segment, rest: seq<Word>, links: nat)
    ensures var child, f := at + [name], Follow(fs, at, [name] + rest, links);
      && (child !in fs ==> f == NoEntry)
      && (child in fs && fs[child] == Dir ==> f == Follow(fs, child, rest, links))
      && (child in fs && fs[child] == File ==> f == if rest == [] then Found(child) else OtherError)
      && (child in fs && fs[child].Symlink? && links == 0 ==> f == OtherError)
    ensures Follow(fs, at, ["."] + rest, links) == Follow(fs, at, rest, links)
    ensures Follow(fs, at, [".."] + rest, links) == Follow(fs, if at == [] then [] else at[..|at| - 1], rest, links)
  {
    var here, up, down: seq<Word> := ["."] + rest, [".."] + rest, [name] + rest;
    assert here[1..] == rest && up[1..] == rest && down[1..] == rest;
  }

  /** `lstat` of a name in a directory without links tells whether it is there. */
  lemma StatTells(fs: FileSystem, at: Path, name: Segment)
    requires Directory(fs, at)
    ensures LStat(fs, Words(at) + [name]) == if at + [name] in fs then Exists else Absent
    ensures LStat(fs, []) == Exists
  {
    var words: seq<Word> := Words(at) + [name];
    assert words[..|words| - 1] == Words(at) && words[|words| - 1] == name;
    CanonicalIsFixed(fs, at);
  }

  /** Any other path is there as far as its directory is, and a path ending in a dot or
      two as far as it resolves; a file in the middle of a path is an error. */
  lemma StatFollows(fs: FileSystem, words: seq<Word>, last: Word)
    ensures var s := LStat(fs, words + [last]);
      if last in {".", ".."} then
        match RealPath(fs, words + [last])
        case Found(_) => s == Exists
        case NoEntry => s == Absent
        case OtherError => s == StatError
      else
        match RealPath(fs, words)
        case Found(d) =>
          s == if d != [] && d in fs && fs[d] == File then StatError else if d + [last] in fs then Exists else Absent
        case NoEntry => s == Absent
        case OtherError => s == StatError
  {
    assert (words + [last])[..|words|] == words;
  }

  /** The walk over missing ancestors ends at the longest part that is not absent, and
      gives up exactly if that part cannot be told to exist. */
  lemma {:induction false} NearestEnds(fs: FileSystem, words: seq<Word>) returns (n: nat)
    ensures n <= |words| && LStat(fs, words[..n]) != Absent
    ensures forall m :: n < m <= |words| ==> LStat(fs, words[..m]) == Absent
    ensures Nearest(fs, words) == if LStat(fs, words[..n]) == Exists then Some(words[..n]) else None
    decreases words
  {
    assert words[..|words|] == words;
    if LStat(fs, words) != Absent {
      n := |words|;
    } else {
      var init := words[..|words| - 1];
      n := NearestEnds(fs, init);
      assert init[..n] == words[..n];
      forall m | n < m <= |words| ensures LStat(fs, words[..m]) == Absent {
        if m <= |init| { assert init[..m] == words[..m]; }
      }
    }
  }

  // ----- the text of a raw path -----

  function RawTail(words: seq<Word>): string {
    if words == [] then "" else "/" + words[0] + RawTail(words[1..])
  }

  lemma {:induction false} RawTextIsTail(words: seq<Word>)
    requires words != []
    ensures RawText(words) == RawTail(words)
  {
    if |words| > 1 {
      RawTextIsTail(words[1..]);
    } else {
      assert words[1..] == [] && "/" + words[0] + "" == "/" + words[0];
    }
  }

  lemma {:induction false} RenderIsTail(p: Path)
    ensures RenderTail(p) == RawTail(Words(p))
  {
    if p != [] {
      assert Words(p)[1..] == Words(p[1..]);
      RenderIsTail(p[1..]);
    }
  }

  lemma RawStarts(words: seq<Word>)
    ensures Boundary(RawTail(words)) && (RawTail(words) == "" <==> words == [])
  {
  }

  lemma {:induction false} RawPrefix(a: seq<Word>, b: seq<Word>, u: string)
    requires Boundary(u) && RawTail(a) + u == RawTail(b)
    ensures a <= b && u == RawTail(b[|a|..])
  {
    if a == [] {
      assert RawTail(a) + u == u;
    } else {
      var r, t := RawTail(a[1..]) + u, RawTail(b[1..]);
      assert RawTail(a) + u == "/" + (a[0] + r);
      RawStarts(a[1..]);
      RawStarts(b[1..]);
      assert RawTail(b) == "/" + (b[0] + t);
      assert (RawTail(a) + u)[1..] == a[0] + r && RawTail(b)[1..] == b[0] + t;
      SegmentEnds(a[0], b[0], r, t);
      RawPrefix(a[1..], b[1..], u);
      assert a == [a[0]] + a[1..] && b == [b[0]] + b[1..];
      assert b[|a|..] == b[1..][|a| - 1..];
    }
  }

  lemma {:induction false} RawConcat(a: seq<Word>, b: seq<Word>)
    ensures RawTail(a + b) == RawTail(a) + RawTail(b)
  {
    if a == [] {
      assert a + b == b;
    } else {
      assert (a + b)[1..] == a[1..] + b;
      RawConcat(a[1..], b);
      assert RawTail(a) == "/" + a[0] + RawTail(a[1..]);
    }
  }

  /** A raw path is in the root as it is written exactly if it begins with the segments
      of the root; dots in it are not resolved. */
  lemma RawWithinIff(root: Path, words: seq<Word>)
    requires root != []
    ensures RawWithin(root, words) <==> Words(root) <= words
  {
    var x, y := RawTail(Words(root)), RawTail(words);
    RenderIsTail(root);
    RawStarts(words);
    if words == [] {
      RootIsLonger(root);
    } else {
      RawTextIsTail(words);
      if Words(root) <= words {
        var rest := words[|root|..];
        assert words == Words(root) + rest;
        RawConcat(Words(root), rest);
        RawStarts(rest);
        if rest != [] { assert RawTail(rest) == "/" + RawTail(rest)[1..]; }
      }
      if RawWithin(root, words) { RawPrefix(Words(root), words, y[|x|..]); }
    }
  }

  lemma RootIsLonger(root: Path)
    requires root != []
    ensures |Render(root)| > 1
  {
    assert Render(root) == "/" + root[0] + RenderTail(root[1..]);
  }

  // ----- gitRelPath -----

  /** `None` when it throws. */
  function GitRelPath(root: Path, raw: Raw): Option<seq<Word>> {
    var rel := Relative(root, Normalize([], Absolute(root, raw)));
    if rel == [] || rel[0] == ".." then None else Some(rel)
  }

  lemma {:induction false} NormalizeWords(at: Path, p: Path)
    ensures Normalize(at, Words(p)) == at + p
    decreases p
  {
    if p != [] {
      assert Words(p)[1..] == Words(p[1..]);
      NormalizeWords(at + [p[0]], p[1..]);
      assert at + [p[0]] + p[1..] == at + p;
    }
  }

  lemma RelativeBelow(root: Path, p: Path)
    requires root <= p
    ensures Relative(root, p) == Words(p[|root|..])
  {
    var n := Common(root, p);
    assert forall i :: 0 <= i < |root| ==> root[i] == p[i];
    assert Relative(root, p) == Words(p[n..]);
  }

  lemma RelativeElsewhere(root: Path, p: Path)
    requires !(root <= p)
    ensures Relative(root, p) != [] && Relative(root, p)[0] == ".."
  {
    var n := Common(root, p);
    assert root[..|root|] == root && root[..n] == p[..n];
  }

  lemma BelowAgain(root: Path, below: Path)
    ensures Relative(root, root + below) == Words(below)
    ensures Normalize(root, Words(below)) == root + below
    ensures below != [] ==> Words(below)[0] != ".."
  {
    RelativeBelow(root, root + below);
    NormalizeWords(root, below);
    if below != [] { assert IsSegment(below[0]); }
  }

  /** It accepts exactly the strict lexical descendants of the root, and its
      answer, resolved against the root, is the normal form of the path. */
  lemma GitRelPathExact(root: Path, raw: Raw)
    ensures var normal := Normalize([], Absolute(root, raw));
      && (GitRelPath(root, raw).Some? <==> root <= normal && root != normal)
      && (GitRelPath(root, raw).Some? ==> Normalize(root, GitRelPath(root, raw).value) == normal)
  {
    var normal := Normalize([], Absolute(root, raw));
    if root <= normal {
      assert normal == root + normal[|root|..];
      BelowAgain(root, normal[|root|..]);
    } else {
      RelativeElsewhere(root, normal);
    }
  }

  /** A relative path and the absolute path it stands for get the same answer. */
  lemma {:induction false} RelativeNormal(root: Path, words: seq<Word>)
    ensures Normalize([], Absolute(root, Raw(false, words))) == Normalize(root, words)
  {
    NormalizeWords([], Normalize(root, words));
    assert [] + Normalize(root, words) == Normalize(root, words);
  }
}
