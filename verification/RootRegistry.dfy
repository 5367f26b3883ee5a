/** Per-agent ownership of project roots: `project.open`, `project.grant`,
    `project.revoke`, `requireRoot` and the eviction at session end. */
module RootRegistry {
  import opened Options
  import opened Paths

  /** Device and inode. */
  type Key = (nat, nat)

  datatype Entry = Entry(root: Path, agentId: string, grants: set<string>)

  type Roots = map<Key, Entry>

  /** `real` overlaps a root of another agent. */
  predicate Conflict(roots: Roots, root: Path, agentId: string) {
    exists k :: k in roots && roots[k].agentId != agentId &&
                (Within(roots[k].root, root) || Within(root, roots[k].root))
  }

  function Open(roots: Roots, k: Key, root: Path, agentId: string): Roots {
    if Conflict(roots, root, agentId) then roots else roots[k := Entry(root, agentId, {})]
  }

  predicate Owns(roots: Roots, k: Key, root: Path, caller: Option<string>) {
    k in roots && roots[k].root == root && Some(roots[k].agentId) == caller
  }

  function Grant(roots: Roots, k: Key, root: Path, caller: Option<string>, grantee: string): Roots {
    if Owns(roots, k, root, caller) then roots[k := roots[k].(grants := roots[k].grants + {grantee})] else roots
  }

  function Revoke(roots: Roots, k: Key, root: Path, caller: Option<string>, grantee: string): Roots {
    if Owns(roots, k, root, caller) then roots[k := roots[k].(grants := roots[k].grants - {grantee})] else roots
  }

  function Evict(roots: Roots, agentId: string): Roots {
    map k | k in roots && roots[k].agentId != agentId :: roots[k].(grants := roots[k].grants - {agentId})
  }

  /** `requireRoot`, after the path has been resolved and its inode read. */
  function RequireRoot(roots: Roots, k: Key, root: Path, caller: Option<string>): Option<Path> {
    if k !in roots || roots[k].root != root then None
    else if Some(roots[k].agentId) == caller || (caller.Some? && caller.value != "" && caller.value in roots[k].grants)
    then Some(root) else None
  }

  class RegisteredRoots {
    var roots: Roots

    constructor ()
      ensures roots == map[]
    {
      roots := map[];
    }

    /** The containment check and the registration; the checks of `project.open`
        before them (repository, never-bound set, key origin, config) have passed. */
    method ProjectOpen(k: Key, root: Path, agentId: string) returns (ok: bool)
      modifies this
      ensures ok == !Conflict(old(roots), root, agentId)
      ensures roots == Open(old(roots), k, root, agentId)
    {
      var left := roots.Keys;
      while left != {}
        invariant left <= roots.Keys && roots == old(roots)
        invariant forall j :: j in roots && j !in left && roots[j].agentId != agentId ==>
          !Within(roots[j].root, root) && !Within(root, roots[j].root)
        decreases left
      {
        var j :| j in left;
        left := left - {j};
        if roots[j].agentId == agentId { continue; }
        if Within(roots[j].root, root) || Within(root, roots[j].root) { return false; }
      }
      roots := roots[k := Entry(root, agentId, {})];
      ok := true;
    }

    method ProjectGrant(k: Key, root: Path, caller: Option<string>, grantee: string) returns (ok: bool)
      modifies this
      ensures ok == Owns(old(roots), k, root, caller) && roots == Grant(old(roots), k, root, caller, grantee)
    {
      if k !in roots || roots[k].root != root || caller == None || roots[k].agentId != caller.value { return false; }
      roots := roots[k := roots[k].(grants := roots[k].grants + {grantee})];
      ok := true;
    }

    method ProjectRevoke(k: Key, root: Path, caller: Option<string>, grantee: string) returns (ok: bool)
      modifies this
      ensures ok == Owns(old(roots), k, root, caller) && roots == Revoke(old(roots), k, root, caller, grantee)
    {
      if k !in roots || roots[k].root != root || caller == None || roots[k].agentId != caller.value { return false; }
      roots := roots[k := roots[k].(grants := roots[k].grants - {grantee})];
      ok := true;
    }

    method EvictRootsForAgent(agentId: string)
      modifies this
      ensures roots == Evict(old(roots), agentId)
    {
      var left := roots.Keys;
      while left != {}
        invariant left <= old(roots).Keys
        invariant forall j :: j in left ==> j in roots && roots[j] == old(roots)[j]
        invariant forall j :: j in roots && j !in left ==>
          j in Evict(old(roots), agentId) && roots[j] == Evict(old(roots), agentId)[j]
        invariant forall j :: j in Evict(old(roots), agentId) ==> j in roots
        decreases left
      {
        var j :| j in left;
        left := left - {j};
        if roots[j].agentId == agentId {
          roots := roots - {j};
        } else {
          roots := roots[j := roots[j].(grants := roots[j].grants - {agentId})];
        }
      }
    }

    method RequireRegisteredRoot(k: Key, root: Path, caller: Option<string>) returns (r: Option<Path>)
      ensures r == RequireRoot(roots, k, root, caller)
    {
      if k !in roots { return None; }
      var entry := roots[k];
      var isOwner := caller.Some? && entry.agentId == caller.value;
      var isGrantee := caller.Some? && caller.value != "" && caller.value in entry.grants;
      if entry.root != root || (!isOwner && !isGrantee) { return None; }
      r := Some(entry.root);
    }
  }

  // ----- runs -----

  datatype Event =
    | Opened(key: Key, root: Path, agentId: string)
    | Granted(key: Key, root: Path, caller: Option<string>, grantee: string)
    | RevokedFrom(key: Key, root: Path, caller: Option<string>, grantee: string)
    | SessionEnded(agentId: string)

  function Step(roots: Roots, e: Event): Roots {
    match e
    case Opened(k, root, a) => Open(roots, k, root, a)
    case Granted(k, root, caller, grantee) => Grant(roots, k, root, caller, grantee)
    case RevokedFrom(k, root, caller, grantee) => Revoke(roots, k, root, caller, grantee)
    case SessionEnded(a) => Evict(roots, a)
  }

  function Run(roots: Roots, es: seq<Event>): Roots
    decreases es
  {
    if es == [] then roots else Run(Step(roots, es[0]), es[1..])
  }

  /** Roots of different agents are not within each other. */
  ghost predicate Apart(roots: Roots) {
    forall j, k :: j in roots && k in roots && roots[j].agentId != roots[k].agentId ==>
      !Within(roots[j].root, roots[k].root)
  }

  lemma {:induction false} RunApart(roots: Roots, es: seq<Event>)
    requires Apart(roots)
    ensures Apart(Run(roots, es))
    decreases es
  {
    if es != [] {
      RunApart(Step(roots, es[0]), es[1..]);
    }
  }

  /** In every reachable state, roots of different agents are neither equal nor
      nested, unless the outer one is the root directory itself. */
  lemma RootsNeverNest(es: seq<Event>, j: Key, k: Key)
    requires var r := Run(map[], es); j in r && k in r && r[j].agentId != r[k].agentId
    ensures var r := Run(map[], es); r[j].root <= r[k].root ==> r[j].root == [] && r[k].root != []
  {
    RunApart(map[], es);
    var r := Run(map[], es);
    assert !Within(r[j].root, r[k].root);
    WithinIsPrefix(r[j].root, r[k].root);
  }

  /** So no path lies under roots of two agents when "/" is not a root. */
  lemma OneOwnerPerPath(es: seq<Event>, p: Path, j: Key, k: Key)
    requires var r := Run(map[], es);
      j in r && k in r && r[j].root != [] && r[k].root != [] && r[j].root <= p && r[k].root <= p
    ensures Run(map[], es)[j].agentId == Run(map[], es)[k].agentId
  {
    var r := Run(map[], es);
    BothPrefixes(r[j].root, r[k].root, p);
    if r[j].agentId != r[k].agentId {
      RootsNeverNest(es, j, k);
      RootsNeverNest(es, k, j);
    }
  }

  /** With "/" it fails: the text test does not see that "/" contains "/s". */
  lemma RootDirectoryNests(a: string, b: string, s: Segment)
    requires a != b
    ensures var r := Run(map[], [Opened((0, 1), [], a), Opened((0, 2), [s], b)]);
      && (0, 1) in r && (0, 2) in r && r[(0, 1)].agentId == a && r[(0, 2)].agentId == b
      && r[(0, 1)].root <= r[(0, 2)].root
  {
    var e, f := Opened((0, 1), [], a), Opened((0, 2), [s], b);
    var r := Open(map[], (0, 1), [], a);
    WithinIsPrefix([], [s]);
    WithinIsPrefix([s], []);
    assert !Conflict(r, [s], b);
    assert Run(map[], [e, f]) == Run(r, [f]) == Run(Open(r, (0, 2), [s], b), []);
  }

  /** The agent owns no root and is in no grant set. */
  ghost predicate HasNothing(roots: Roots, agentId: string) {
    forall k :: k in roots ==> roots[k].agentId != agentId && agentId !in roots[k].grants
  }

  predicate Admits(e: Event, agentId: string) {
    (e.Opened? && e.agentId == agentId) || (e.Granted? && e.grantee == agentId)
  }

  lemma {:induction false} NothingUntilAdmitted(roots: Roots, es: seq<Event>, agentId: string)
    requires HasNothing(roots, agentId) && forall i :: 0 <= i < |es| ==> !Admits(es[i], agentId)
    ensures HasNothing(Run(roots, es), agentId)
    decreases es
  {
    if es != [] {
      NothingUntilAdmitted(Step(roots, es[0]), es[1..], agentId);
    }
  }

  /** Once its session has ended, an agent owns nothing, is granted nothing and
      passes `requireRoot` for nothing until it opens or is granted a root again. */
  lemma EndedAgentHasNothing(roots: Roots, es: seq<Event>, agentId: string, k: Key, p: Path)
    requires forall i :: 0 <= i < |es| ==> !Admits(es[i], agentId)
    ensures var r := Run(Step(roots, SessionEnded(agentId)), es);
      HasNothing(r, agentId) && RequireRoot(r, k, p, Some(agentId)) == None
  {
    NothingUntilAdmitted(Evict(roots, agentId), es, agentId);
  }

  // ----- who may use a root, by the history of events -----

  /** Path and owner of the root with this key: of its last opening that met no root
      of another agent, unless the owner's session ended since. */
  ghost function Held(es: seq<Event>, k: Key): Option<(Path, string)>
    decreases |es|, 0
  {
    if es == [] then None
    else
      var e, before := es[|es| - 1], es[..|es| - 1];
      match e
      case Opened(j, root, a) => if j == k && !MeetsOther(before, root, a) then Some((root, a)) else Held(before, k)
      case SessionEnded(a) => if Held(before, k).Some? && Held(before, k).value.1 == a then None else Held(before, k)
      case _ => Held(before, k)
  }

  /** The path and a root of another agent contain one another. */
  ghost predicate MeetsOther(es: seq<Event>, root: Path, agentId: string)
    decreases |es|, 1
  {
    exists k :: Held(es, k).Some? && Held(es, k).value.1 != agentId &&
                (Within(Held(es, k).value.0, root) || Within(root, Held(es, k).value.0))
  }

  /** The agent was granted the root by its owner, naming its path, since the root was
      last opened, and was neither revoked by the owner nor ended since. */
  ghost predicate Standing(es: seq<Event>, k: Key, agentId: string)
    decreases |es|
  {
    if es == [] then false
    else
      var e, before := es[|es| - 1], es[..|es| - 1];
      match e
      case Opened(j, root, a) => (j != k || MeetsOther(before, root, a)) && Standing(before, k, agentId)
      case Granted(j, root, caller, g) =>
        || Standing(before, k, agentId)
        || (j == k && g == agentId && caller.Some? && Held(before, k) == Some((root, caller.value)))
      case RevokedFrom(j, root, caller, g) =>
        && Standing(before, k, agentId)
        && !(j == k && g == agentId && caller.Some? && Held(before, k) == Some((root, caller.value)))
      case SessionEnded(a) =>
        && Standing(before, k, agentId)
        && a != agentId && !(Held(before, k).Some? && Held(before, k).value.1 == a)
  }

  lemma {:induction false} RunSnoc(roots: Roots, es: seq<Event>, e: Event)
    ensures Run(roots, es + [e]) == Step(Run(roots, es), e)
    decreases es
  {
    if es == [] {
      assert (es + [e])[1..] == [];
    } else {
      assert (es + [e])[1..] == es[1..] + [e];
      RunSnoc(Step(roots, es[0]), es[1..], e);
    }
  }

  function PathAndOwner(roots: Roots, k: Key): Option<(Path, string)> {
    if k in roots then Some((roots[k].root, roots[k].agentId)) else None
  }

  /** The registry holds what the history says. */
  lemma {:induction false} HeldIsRegistered(es: seq<Event>)
    ensures forall k :: Held(es, k) == PathAndOwner(Run(map[], es), k)
    decreases |es|
  {
    if es != [] {
      var e, before := es[|es| - 1], es[..|es| - 1];
      var was := Run(map[], before);
      assert es == before + [e];
      RunSnoc(map[], before, e);
      HeldIsRegistered(before);
      if e.Opened? { MeetsIsConflict(before, e.root, e.agentId); }
    }
  }

  lemma MeetsIsConflict(es: seq<Event>, root: Path, agentId: string)
    requires forall k :: Held(es, k) == PathAndOwner(Run(map[], es), k)
    ensures MeetsOther(es, root, agentId) <==> Conflict(Run(map[], es), root, agentId)
  {
    var was := Run(map[], es);
    if Conflict(was, root, agentId) {
      var k :| k in was && was[k].agentId != agentId && (Within(was[k].root, root) || Within(root, was[k].root));
      assert Held(es, k).Some?;
    }
  }

  /** The grants of a root are those that stand. */
  lemma {:induction false} GrantsAreStanding(es: seq<Event>, k: Key, agentId: string)
    ensures k in Run(map[], es) && agentId in Run(map[], es)[k].grants <==> Standing(es, k, agentId)
    decreases |es|
  {
    if es != [] {
      var e, before := es[|es| - 1], es[..|es| - 1];
      assert es == before + [e];
      RunSnoc(map[], before, e);
      HeldIsRegistered(before);
      if e.Opened? { MeetsIsConflict(before, e.root, e.agentId); }
      GrantsAreStanding(before, k, agentId);
    }
  }

  /** After every history: an agent passes for a key and a path if and only if the
      root with this key stands open at this path, and the agent opened it or has a
      grant for it that stands. Nobody passes without an agent. */
  lemma RequireRootIff(es: seq<Event>, k: Key, p: Path, caller: Option<string>)
    ensures RequireRoot(Run(map[], es), k, p, caller) ==
      if && caller.Some? && Held(es, k).Some? && Held(es, k).value.0 == p
         && (Held(es, k).value.1 == caller.value || (caller.value != "" && Standing(es, k, caller.value)))
      then Some(p) else None
  {
    HeldIsRegistered(es);
    if caller.Some? { GrantsAreStanding(es, k, caller.value); }
  }
}
