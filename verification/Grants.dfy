/** Operator-issued permission grants with use caps. Any number of
    `tryConsumeGrant` calls run at once; each database statement is one step, so
    a call's SELECT and its guarded UPDATEs may be separated by anything. */
module Grants {
  import opened Options
  import opened Paths

  datatype ActionClass = Routine | Consequential | Critical
  datatype Status = Active | Expired | Exhausted | Revoked

  type Id = string

  datatype Grant = Grant(
    grantee: string, classes: seq<string>, methods: seq<string>, rootScope: Option<string>,
    expiresAt: int, maxUses: Option<nat>, usesRemaining: Option<nat>, issuedBy: string, issuedAt: int, status: Status)

  type Grants = map<Id, Grant>

  /** Critical methods are covered by name only. */
  predicate CoversMethod(g: Grant, name: string, c: ActionClass) {
    match c
    case Critical => name in g.methods
    case Consequential => "consequential" in g.classes || name in g.methods
    case Routine => true
  }

  /** `path` is the path-like param of the call, if it has one. */
  predicate RootMatches(scope: Option<string>, path: Option<string>) {
    scope == None || path == None ||
    var s, p := scope.value, path.value;
    var root := if s != "" && s[|s| - 1] == '/' then s else s + "/";
    s == "" || p == "" || p == s || root <= p
  }

  // ----- the statements -----

  /** What `issueGrant` accepts; class and method names are already normalised. */
  predicate Issuable(g: Grant, now: int) {
    && g.grantee != "" && g.issuedBy != g.grantee
    && (forall c :: c in g.classes ==> c == "consequential")
    && (g.classes != [] || g.methods != [])
    && (g.maxUses.Some? ==> g.maxUses.value >= 1)
    && g.expiresAt > now
    && g.usesRemaining == g.maxUses && g.status == Active
  }

  function ExpireAll(gs: Grants, now: int): Grants {
    map id | id in gs ::
      if gs[id].status == Active && gs[id].expiresAt <= now then gs[id].(status := Expired) else gs[id]
  }

  predicate Selectable(g: Grant, grantee: string, now: int) {
    g.grantee == grantee && g.status == Active && g.expiresAt > now && g.usesRemaining != Some(0)
  }

  /** Whether the guarded UPDATE matches the row. */
  predicate Consumable(gs: Grants, id: Id) {
    id in gs && gs[id].status == Active && gs[id].usesRemaining.Some? && gs[id].usesRemaining.value > 0
  }

  function UseOnce(g: Grant): Grant
    requires g.usesRemaining.Some? && g.usesRemaining.value > 0
  {
    var left := g.usesRemaining.value - 1;
    g.(usesRemaining := Some(left), status := if left <= 0 then Exhausted else g.status)
  }

  class GrantTable {
    var grants: Grants

    constructor ()
      ensures grants == map[]
    {
      grants := map[];
    }

    method IssueGrant(now: int, id: Id, g: Grant) returns (ok: bool)
      modifies this
      ensures ok == (Issuable(g, now) && id !in old(grants))
      ensures grants == if ok then old(grants)[id := g] else old(grants)
    {
      ok := Issuable(g, now) && id !in grants;
      if ok { grants := grants[id := g]; }
    }

    method ExpireGrants(now: int)
      modifies this
      ensures grants == ExpireAll(old(grants), now)
    {
      grants := ExpireAll(grants, now);
    }

    method ConsumeUse(id: Id) returns (updated: bool)
      modifies this
      ensures updated == Consumable(old(grants), id)
      ensures grants == if updated then old(grants)[id := UseOnce(old(grants)[id])] else old(grants)
    {
      if id !in grants || grants[id].status != Active || grants[id].usesRemaining in {None, Some(0)} { return false; }
      grants := grants[id := UseOnce(grants[id])];
      updated := true;
    }

    method RevokeGrant(id: Id) returns (ok: bool)
      modifies this
      ensures ok == (id in old(grants) && old(grants)[id].status == Active)
      ensures grants == if ok then old(grants)[id := old(grants)[id].(status := Revoked)] else old(grants)
    {
      if id !in grants || grants[id].status != Active { return false; }
      grants := grants[id := grants[id].(status := Revoked)];
      ok := true;
    }
  }

  // ----- concurrent calls -----

  type Pid = nat

  datatype Request = Request(agentId: string, name: string, action: ActionClass, path: Option<string>)

  /** A call after its SELECT, with the rows it read and has not tried yet, or
      its result. */
  datatype Call = Scanning(request: Request, rows: seq<(Id, Grant)>) | Admitted(request: Request, id: Id) | NoGrant

  datatype State = State(now: int, grants: Grants, calls: map<Pid, Call>)

  datatype Event =
    | Tick(to: int)
    | Issue(id: Id, grant: Grant)
    | Expire
    | Revoke(id: Id)
    | Select(pid: Pid, request: Request, order: seq<Id>)
    | TryRow(pid: Pid)

  /** `order` lists the selectable grants, oldest first. */
  predicate Lists(s: State, request: Request, order: seq<Id>) {
    && (forall id :: id in order ==> id in s.grants && Selectable(s.grants[id], request.agentId, s.now))
    && (forall id :: id in s.grants && Selectable(s.grants[id], request.agentId, s.now) ==> id in order)
    && (forall i, j :: 0 <= i < j < |order| ==> s.grants[order[i]].issuedAt <= s.grants[order[j]].issuedAt)
  }

  /** One turn of the loop over the rows read: skip, update, or admit. */
  function TryNext(s: State, pid: Pid, c: Call): State
    requires c.Scanning?
  {
    if c.rows == [] then s.(calls := s.calls[pid := NoGrant])
    else
      var (id, g) := c.rows[0];
      var skipped := s.(calls := s.calls[pid := c.(rows := c.rows[1..])]);
      var admitted := s.(calls := s.calls[pid := Admitted(c.request, id)]);
      if !CoversMethod(g, c.request.name, c.request.action) || !RootMatches(g.rootScope, c.request.path) then skipped
      else if g.usesRemaining == None then admitted
      else if Consumable(s.grants, id) then admitted.(grants := s.grants[id := UseOnce(s.grants[id])])
      else skipped
  }

  function Step(s: State, e: Event): State {
    match e
    case Tick(to) => if to >= s.now then s.(now := to) else s
    case Issue(id, g) => if Issuable(g, s.now) && id !in s.grants then s.(grants := s.grants[id := g]) else s
    case Expire => s.(grants := ExpireAll(s.grants, s.now))
    case Revoke(id) =>
      if id in s.grants && s.grants[id].status == Active
      then s.(grants := s.grants[id := s.grants[id].(status := Revoked)]) else s
    case Select(pid, request, order) =>
      if pid !in s.calls && Lists(s, request, order)
      then
        var rows := seq(|order|, i requires 0 <= i < |order| => (order[i], s.grants[order[i]]));
        s.(calls := s.calls[pid := Scanning(request, rows)])
      else s
    case TryRow(pid) => if pid in s.calls && s.calls[pid].Scanning? then TryNext(s, pid, s.calls[pid]) else s
  }

  function Run(s: State, es: seq<Event>): State
    decreases es
  {
    if es == [] then s else Run(Step(s, es[0]), es[1..])
  }

  // ----- properties -----

  ghost function AdmittedCalls(s: State, id: Id): set<Pid> {
    set p | p in s.calls && s.calls[p].Admitted? && s.calls[p].id == id
  }

  /** The cap is conserved, and an active grant has uses left. */
  ghost predicate Conserved(s: State, id: Id)
    requires id in s.grants
  {
    var g := s.grants[id];
    && (g.maxUses.Some? <==> g.usesRemaining.Some?)
    && (g.maxUses.Some? ==> g.usesRemaining.value + |AdmittedCalls(s, id)| == g.maxUses.value)
    && (g.status == Active ==> g.usesRemaining != Some(0))
    && (forall c :: c in g.classes ==> c == "consequential")
  }

  /** What issuing fixed: everything but the remaining uses and the status. */
  function Terms(g: Grant): Grant {
    g.(usesRemaining := g.maxUses, status := Active)
  }

  /** A row read by a call, and a grant a call was admitted through. */
  ghost predicate Matches(s: State, p: Pid)
    requires p in s.calls
  {
    match s.calls[p]
    case Scanning(r, rows) => forall i :: 0 <= i < |rows| ==>
      && rows[i].0 in s.grants && Terms(rows[i].1) == Terms(s.grants[rows[i].0]) && rows[i].1.grantee == r.agentId
      && (rows[i].1.maxUses.Some? <==> rows[i].1.usesRemaining.Some?)
    case Admitted(r, id) => id in s.grants && s.grants[id].grantee == r.agentId
      && CoversMethod(s.grants[id], r.name, r.action) && RootMatches(s.grants[id].rootScope, r.path)
    case NoGrant => true
  }

  ghost predicate Invariant(s: State) {
    && (forall id :: id in s.grants ==> Conserved(s, id))
    && (forall p :: p in s.calls ==> Matches(s, p))
  }

  lemma InitialInvariant(now: int)
    ensures Invariant(State(now, map[], map[]))
  {
  }

  lemma StepTerms(s: State, e: Event)
    ensures forall id :: id in s.grants ==>
      id in Step(s, e).grants && Terms(Step(s, e).grants[id]) == Terms(s.grants[id])
  {
  }

  lemma StepMatches(s: State, e: Event)
    requires Invariant(s)
    ensures forall p :: p in Step(s, e).calls ==> Matches(Step(s, e), p)
  {
    var s' := Step(s, e);
    StepTerms(s, e);
    forall p | p in s'.calls ensures Matches(s', p) {
      if p in s.calls {
        assert Matches(s, p);
        StepMatch(s, e, p);
      } else {
        forall id | id in s.grants ensures Conserved(s, id) {}
      }
    }
  }

  lemma StepMatch(s: State, e: Event, p: Pid)
    requires p in s.calls && Matches(s, p)
    requires forall id :: id in s.grants ==>
      id in Step(s, e).grants && Terms(Step(s, e).grants[id]) == Terms(s.grants[id])
    ensures p in Step(s, e).calls && Matches(Step(s, e), p)
  {
    if e.TryRow? && e.pid == p && s.calls[p].Scanning? && s.calls[p].rows != [] {
      var (id, g) := s.calls[p].rows[0];
      assert Terms(g) == Terms(s.grants[id]);
      assert Step(s, e).calls[p].Scanning? ==> Step(s, e).calls[p].rows == s.calls[p].rows[1..];
    }
  }

  /** The grant whose use this step spends, or the unlimited one it admits by. */
  ghost predicate AdmitsBy(s: State, e: Event, id: Id) {
    e.TryRow? && e.pid in s.calls && s.calls[e.pid].Scanning? && s.calls[e.pid].rows != []
    && Step(s, e).calls[e.pid] == Admitted(s.calls[e.pid].request, id)
  }

  lemma StepAdmitted(s: State, e: Event, id: Id)
    ensures AdmittedCalls(Step(s, e), id) == AdmittedCalls(s, id) + if AdmitsBy(s, e, id) then {e.pid} else {}
    ensures AdmitsBy(s, e, id) ==> e.pid !in AdmittedCalls(s, id)
  {
  }

  /** A grant's row changes in a step by the use it admits, or to a final status. */
  lemma StepGrant(s: State, e: Event, id: Id)
    requires id in s.grants
    ensures id in Step(s, e).grants
    ensures var g, g' := s.grants[id], Step(s, e).grants[id];
      if AdmitsBy(s, e, id) && s.calls[e.pid].rows[0].1.usesRemaining.Some? then
        Consumable(s.grants, id) && g' == UseOnce(g)
      else g' == g || (g'.status != Active && g' == g.(status := g'.status))
  {
  }

  lemma StepConserved(s: State, e: Event, id: Id)
    requires Invariant(s) && id in s.grants
    ensures id in Step(s, e).grants && Conserved(Step(s, e), id)
  {
    assert Conserved(s, id);
    StepAdmitted(s, e, id);
    StepGrant(s, e, id);
    if AdmitsBy(s, e, id) {
      AdmittingRow(s, e, id);
      assert |AdmittedCalls(Step(s, e), id)| == |AdmittedCalls(s, id)| + 1;
    }
  }

  /** The row a call is admitted by was read under the same terms as the grant has now. */
  lemma AdmittingRow(s: State, e: Event, id: Id)
    requires Invariant(s) && id in s.grants && AdmitsBy(s, e, id)
    ensures s.calls[e.pid].rows[0].1.usesRemaining.Some? <==> s.grants[id].maxUses.Some?
  {
    assert Matches(s, e.pid);
    assert s.calls[e.pid].rows[0].0 == id;
    assert Terms(s.calls[e.pid].rows[0].1) == Terms(s.grants[id]);
  }

  lemma StepInvariant(s: State, e: Event)
    requires Invariant(s)
    ensures Invariant(Step(s, e))
  {
    StepMatches(s, e);
    var s' := Step(s, e);
    forall id | id in s'.grants ensures Conserved(s', id) {
      if id in s.grants {
        StepConserved(s, e, id);
      } else {
        StepAdmitted(s, e, id);
        forall p | p in s.calls && s.calls[p].Admitted? ensures s.calls[p].id in s.grants { assert Matches(s, p); }
        assert AdmittedCalls(s', id) == {};
      }
    }
  }

  lemma {:induction false} RunInvariant(s: State, es: seq<Event>)
    requires Invariant(s)
    ensures Invariant(Run(s, es))
    decreases es
  {
    if es != [] {
      StepInvariant(s, es[0]);
      RunInvariant(Step(s, es[0]), es[1..]);
    }
  }

  /** In every run: for a grant capped at n, uses left plus calls admitted through
      it are n, so it never admits more than n, and it is not active at zero. */
  lemma CapConserved(now: int, es: seq<Event>, id: Id)
    requires id in Run(State(now, map[], map[]), es).grants
    ensures var s := Run(State(now, map[], map[]), es); var g := s.grants[id];
      && (g.maxUses.Some? ==>
        g.usesRemaining.Some? && g.usesRemaining.value + |AdmittedCalls(s, id)| == g.maxUses.value)
      && (g.status == Active ==> g.usesRemaining != Some(0))
  {
    RunInvariant(State(now, map[], map[]), es);
    assert Conserved(Run(State(now, map[], map[]), es), id);
  }

  /** A call is admitted only through a grant of its own agent within its root
      scope, and a critical method only through a grant that names it. */
  lemma AdmittedByItsGrant(now: int, es: seq<Event>, p: Pid)
    requires p in Run(State(now, map[], map[]), es).calls && Run(State(now, map[], map[]), es).calls[p].Admitted?
    ensures var s := Run(State(now, map[], map[]), es); var c := s.calls[p];
      && c.id in s.grants && s.grants[c.id].grantee == c.request.agentId
      && RootMatches(s.grants[c.id].rootScope, c.request.path)
      && (c.request.action == Critical ==> c.request.name in s.grants[c.id].methods)
      && (c.request.action == Consequential ==>
        "consequential" in s.grants[c.id].classes || c.request.name in s.grants[c.id].methods)
  {
    RunInvariant(State(now, map[], map[]), es);
    assert Matches(Run(State(now, map[], map[]), es), p);
  }

  // ----- the root scope -----

  /** A scope matches exactly the paths in its directory and the directory itself,
      never a sibling whose name it begins; with a slash at its end, only what is
      beneath it. A grant without a scope and a call without a path always match. */
  lemma ScopeIsPrefix(scope: Path, path: Path)
    ensures RootMatches(Some(Render(scope)), Some(Render(path))) <==> scope <= path
    ensures scope != [] ==> (RootMatches(Some(Render(scope) + "/"), Some(Render(path))) <==> scope < path)
    ensures RootMatches(None, Some(Render(path))) && RootMatches(Some(Render(scope)), None)
    ensures RootMatches(Some(""), Some(Render(path))) && RootMatches(Some(Render(scope)), Some(""))
  {
    var x, y := Render(scope), Render(path);
    RenderStarts(scope);
    RenderStarts(path);
    if scope != [] {
      RenderEnds(scope);
      WithinIsPrefix(scope, path);
      assert RootMatches(Some(x), Some(y)) <==> x == y || x + "/" <= y;
      assert (x + "/")[|x + "/"| - 1] == '/';
      assert RootMatches(Some(x + "/"), Some(y)) <==> x + "/" <= y by {
        if x + "/" == y && path != [] { RenderEnds(path); }
      }
      if x == y { RenderSame(scope, path); }
      if scope <= path && |scope| == |path| { assert scope == path; }
    } else {
      assert x == "/" && "/" <= y;
    }
  }

  lemma RenderStarts(p: Path)
    ensures Render(p) != "" && Render(p)[0] == '/'
  {
    if p != [] { assert RenderTail(p)[0] == '/'; }
  }

  lemma {:induction false} RenderEnds(p: Path)
    requires p != []
    ensures Render(p) != "" && Render(p)[|Render(p)| - 1] != '/'
  {
    var t := RenderTail(p[1..]);
    assert Render(p) == "/" + p[0] + t;
    if |p| == 1 {
      assert t == "" && Render(p)[|Render(p)| - 1] == p[0][|p[0]| - 1];
      assert p[0][|p[0]| - 1] in p[0];
    } else {
      RenderEnds(p[1..]);
      assert t == Render(p[1..]);
      assert Render(p)[|Render(p)| - 1] == t[|t| - 1];
    }
  }

  lemma RenderSame(a: Path, b: Path)
    requires a != [] && Render(a) == Render(b)
    ensures a == b
  {
    WithinIsPrefix(a, b);
    WithinIsPrefix(b, a);
  }

  // ----- what each event does -----

  /** A grant is stored exactly if its id is new and it names a grantee other than its
      issuer, holds something to grant and no class but the consequential one, has a
      positive cap or none, all of it left, and expires in the future. */
  lemma IssueStores(s: State, id: Id, g: Grant)
    ensures Step(s, Issue(id, g)) ==
      if && id !in s.grants
         && g.grantee != "" && g.grantee != g.issuedBy && (g.classes != [] || g.methods != [])
         && (forall c :: c in g.classes ==> c == "consequential")
         && g.maxUses != Some(0) && g.usesRemaining == g.maxUses && g.status == Active && g.expiresAt > s.now
      then s.(grants := s.grants[id := g]) else s
  {
  }

  lemma ExpireTakes(s: State, id: Id)
    requires id in s.grants
    ensures var g, t := s.grants[id], Step(s, Expire);
      && t.grants.Keys == s.grants.Keys && t.calls == s.calls
      && t.grants[id] == if g.status == Active && g.expiresAt <= s.now then g.(status := Expired) else g
  {
  }

  /** A grant that is not active any more never changes again. */
  lemma {:induction false} InactiveForever(s: State, es: seq<Event>, id: Id)
    requires id in s.grants && s.grants[id].status != Active
    ensures id in Run(s, es).grants && Run(s, es).grants[id] == s.grants[id]
    decreases es
  {
    if es != [] { InactiveForever(Step(s, es[0]), es[1..], id); }
  }

  /** So after a revocation no use of a capped grant is spent, by whatever calls that
      read it before. */
  lemma RevokedIsNotSpent(s: State, es: seq<Event>, e: Event, id: Id)
    requires Invariant(s) && id in s.grants && s.grants[id].status == Active && s.grants[id].maxUses.Some?
    ensures var t := Run(Step(s, Revoke(id)), es);
      && id in t.grants && t.grants[id] == s.grants[id].(status := Revoked)
      && !AdmitsBy(t, e, id)
  {
    var revoked := Step(s, Revoke(id));
    InactiveForever(revoked, es, id);
    StepInvariant(s, Revoke(id));
    RunInvariant(revoked, es);
    var t := Run(revoked, es);
    if AdmitsBy(t, e, id) {
      AdmittingRow(t, e, id);
      StepGrant(t, e, id);
    }
  }

  /** What a call reads: the active grants of its agent that have not expired and have
      a use left or no cap, the oldest first. */
  lemma SelectReads(s: State, p: Pid, r: Request, order: seq<Id>)
    requires p !in s.calls && Lists(s, r, order)
    ensures var t := Step(s, Select(p, r, order));
      && p in t.calls && t.calls[p].Scanning? && t.calls[p].request == r && t.grants == s.grants
      && var rows := t.calls[p].rows;
         && (forall i :: 0 <= i < |rows| ==> rows[i].0 in s.grants && rows[i].1 == s.grants[rows[i].0])
         && (forall i, j :: 0 <= i < j < |rows| ==> rows[i].1.issuedAt <= rows[j].1.issuedAt)
         && forall id :: (exists i :: 0 <= i < |rows| && rows[i].0 == id) <==>
              && id in s.grants && s.grants[id].grantee == r.agentId && s.grants[id].status == Active
              && s.grants[id].expiresAt > s.now && s.grants[id].usesRemaining != Some(0)
  {
    var rows := Step(s, Select(p, r, order)).calls[p].rows;
    forall id ensures (exists i :: 0 <= i < |rows| && rows[i].0 == id) <==> id in order {
      if id in order {
        var i :| 0 <= i < |order| && order[i] == id;
        assert rows[i].0 == id;
      }
    }
  }

  /** A grant lets a request through: by name, or by class when it is not critical,
      and within its root scope. */
  predicate Allows(g: Grant, r: Request) {
    && (r.action == Critical ==> r.name in g.methods)
    && (r.action == Consequential ==> r.name in g.methods || "consequential" in g.classes)
    && RootMatches(g.rootScope, r.path)
  }

  /** One turn: a row that lets the request through admits it and spends one use of the
      row as it is now, which the last use exhausts; with no use left there, or a row
      that does not let it through, the next row is tried, and after the last none. */
  lemma TurnTries(s: State, p: Pid)
    requires p in s.calls && s.calls[p].Scanning?
    ensures var r, rows, t := s.calls[p].request, s.calls[p].rows, Step(s, TryRow(p));
      && t.now == s.now
      && if rows == [] then t == s.(calls := s.calls[p := NoGrant])
         else
           var (id, read) := rows[0];
           var left := if id in s.grants && s.grants[id].status == Active then s.grants[id].usesRemaining else None;
           if Allows(read, r) && read.usesRemaining == None then t == s.(calls := s.calls[p := Admitted(r, id)])
           else if Allows(read, r) && left.Some? && left.value > 0 then
             && t.calls == s.calls[p := Admitted(r, id)]
             && t.grants == s.grants[id := s.grants[id].(usesRemaining := Some(left.value - 1),
                  status := if left.value == 1 then Exhausted else Active)]
           else t == s.(calls := s.calls[p := Scanning(r, rows[1..])])
  {
  }

  predicate FirstAllowed(rows: seq<(Id, Grant)>, r: Request, i: nat) {
    i < |rows| && Allows(rows[i].1, r) && forall j :: 0 <= j < i ==> !Allows(rows[j].1, r)
  }

  function Turns(p: Pid, n: nat): seq<Event> {
    if n == 0 then [] else [TryRow(p)] + Turns(p, n - 1)
  }

  /** A call that nothing disturbs is admitted by the first grant it read that lets it
      through, and refused only when none does. */
  lemma {:induction false} ScanAlone(s: State, p: Pid)
    requires p in s.calls && s.calls[p].Scanning?
    requires forall i :: 0 <= i < |s.calls[p].rows| ==>
      var (id, read) := s.calls[p].rows[i];
      id in s.grants && s.grants[id] == read && read.status == Active && read.usesRemaining != Some(0)
    ensures var r, rows := s.calls[p].request, s.calls[p].rows;
      var t := Run(s, Turns(p, |rows| + 1));
      && p in t.calls
      && (t.calls[p] == NoGrant <==> forall i :: 0 <= i < |rows| ==> !Allows(rows[i].1, r))
      && (forall i: nat :: FirstAllowed(rows, r, i) ==> t.calls[p] == Admitted(r, rows[i].0))
    decreases |s.calls[p].rows|
  {
    var r, rows := s.calls[p].request, s.calls[p].rows;
    var t := Step(s, TryRow(p));
    TurnTries(s, p);
    assert Turns(p, |rows| + 1)[1..] == Turns(p, |rows|);
    if rows == [] {
      assert Run(s, Turns(p, 1)) == Run(t, []);
    } else if Allows(rows[0].1, r) {
      Settled(t, p, |rows|);
    } else {
      ScanAlone(t, p);
      assert forall i :: 1 <= i < |rows| ==> rows[i] == rows[1..][i - 1];
      forall i: nat | FirstAllowed(rows, r, i) ensures i > 0 && FirstAllowed(rows[1..], r, i - 1) {
      }
    }
  }

  lemma {:induction false} Settled(s: State, p: Pid, n: nat)
    requires p in s.calls && !s.calls[p].Scanning?
    ensures Run(s, Turns(p, n)) == s
    decreases n
  {
    if n > 0 {
      assert Turns(p, n)[1..] == Turns(p, n - 1);
      Settled(s, p, n - 1);
    }
  }
}
