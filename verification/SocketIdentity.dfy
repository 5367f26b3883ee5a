/** The identity bound to one socket: `verifyOrWarn` binds the signer for one
    request only, `session.register` and `session.attach` bind the connection.
    All requests of a socket share one context, and nothing queues them: the
    steps of a request that lie between two awaits may be separated by steps of
    the others. */
module SocketIdentity {
  import opened Options
  import opened Sequences

  datatype Via = Register | Attach | Param | Signature
  datatype Origin = ClientKey | DaemonKey

  datatype Ctx = Ctx(
    agentId: Option<string>, agentName: Option<string>, boundVia: Option<Via>, kid: Option<string>,
    preAgentId: Option<string>, preAgentName: Option<string>, preBoundVia: Option<Via>, keyOrigin: Option<Origin>)

  const FRESH := Ctx(None, None, None, None, None, None, None, None)

  /** The outcome of checking the envelope of a request. */
  datatype Envelope = Unsigned | Invalid | Verified(signer: string, kid: string)

  /** What the handler of a method does to the socket's identity. A registration
      may fail to store its session, before it binds, or to enrol a key, after;
      an end may fail to mark the session, before it clears the binding. */
  datatype Kind =
    | Registering(id: string, name: string, stored: bool, enrolled: bool)
    | Attaching(id: string, sessionName: Option<string>, live: bool)
    | Ending(marked: bool)
    | SelfScoped
    | Other

  /** A request together with what the rest of the daemon answers for it: whether
      licence, params and handler lookup admit it, whether the permission gate
      lets an agent through, whether the daemon is closing, and which agents
      have a daemon-minted key (or none). */
  datatype Request = Request(
    kind: Kind, envelope: Envelope, signatureRequired: bool, identityExempt: bool, actor: Option<string>,
    admitted: bool, permitted: Option<string> -> bool, closing: bool, daemonMinted: string -> bool)

  /** `Ran` carries the identity the handler started with; `failed` says it threw. */
  datatype Outcome = NotAdmitted | SignatureRequired | NotRegistered | NotPermitted | ShuttingDown
                   | Ran(agentId: Option<string>, via: Option<Via>, failed: bool)

  /** What a handler has left to do to the context after its await. */
  datatype Todo =
    | Store(id: string, name: string, stored: bool, enrolled: bool)
    | LookUp(id: string, sessionName: Option<string>, live: bool)
    | Clear(target: string, marked: bool)
    | Check(bound: string, minted: bool)

  /** Where a request stands: after its reset, after its envelope was checked, in
      the permission gate with the agent it asks for, in its handler with the
      identity the handler started with, or answered. */
  datatype Call =
    | Verifying(r: Request)
    | Checked(r: Request)
    | Permitting(r: Request, agent: Option<string>)
    | Running(agentId: Option<string>, via: Option<Via>, todo: Todo)
    | Finished(outcome: Outcome)

  // ----- the stretches between two awaits -----

  function Restore(c: Ctx): Ctx {
    if c.boundVia == Some(Signature)
    then Ctx(c.preAgentId, c.preAgentName, c.preBoundVia, None, None, None, None, c.keyOrigin)
    else c
  }

  /** After the nonce insert: snapshot the identity and bind the signer. */
  function BindSigner(c: Ctx, e: Envelope): Ctx {
    match e
    case Verified(signer, kid) =>
      Ctx(Some(signer), c.agentName, Some(Signature), Some(kid), c.agentId, c.agentName, c.boundVia, c.keyOrigin)
    case _ => c
  }

  function OrElse(a: Option<string>, b: Option<string>): Option<string> {
    if a.Some? then a else b
  }

  /** The signature gate and the identity gate. */
  function AtGate(c: Ctx, r: Request): Call {
    var agent := OrElse(c.agentId, r.actor);
    if r.signatureRequired && !r.envelope.Verified? then Finished(SignatureRequired)
    else if !r.identityExempt && agent == None then Finished(NotRegistered)
    else Permitting(r, agent)
  }

  /** The handler up to its first await. */
  function EnterHandler(c: Ctx, r: Request): Call {
    match r.kind
    case Registering(id, name, stored, enrolled) => Running(c.agentId, c.boundVia, Store(id, name, stored, enrolled))
    case Attaching(id, name, live) => Running(c.agentId, c.boundVia, LookUp(id, name, live))
    case Ending(marked) =>
      if c.boundVia != Some(Signature) || c.agentId == None then Finished(Ran(c.agentId, c.boundVia, true))
      else Running(c.agentId, c.boundVia, Clear(c.agentId.value, marked))
    case SelfScoped =>
      if c.boundVia == Some(Signature) && c.agentId.Some? then Finished(Ran(c.agentId, c.boundVia, false))
      else
        (match OrElse(c.agentId, r.actor)
         case None => Finished(Ran(c.agentId, c.boundVia, true))
         case Some(bound) => Running(c.agentId, c.boundVia, Check(bound, r.daemonMinted(bound))))
    case Other => Finished(Ran(c.agentId, c.boundVia, false))
  }

  /** The answer of the permission gate for `agent`, the shutdown gate, the handler. */
  function AtStart(c: Ctx, r: Request, agent: Option<string>): Call {
    if !r.permitted(agent) then Finished(NotPermitted)
    else if r.closing then Finished(ShuttingDown)
    else EnterHandler(c, r)
  }

  /** What `requireVerifiedAgent` writes for an agent with a daemon-minted key. */
  function Materialise(c: Ctx, bound: string): Ctx {
    var c' := if c.agentId == None then c.(agentId := Some(bound), boundVia := Some(Param)) else c;
    c'.(keyOrigin := Some(DaemonKey))
  }

  /** The handler after its await, and whether it throws. */
  function Complete(c: Ctx, todo: Todo): (Ctx, bool) {
    match todo
    case Store(id, name, stored, enrolled) =>
      if stored then (c.(agentId := Some(id), agentName := Some(name), boundVia := Some(Register)), !enrolled)
      else (c, true)
    case LookUp(id, name, live) =>
      if live then (c.(agentId := Some(id), agentName := name, boundVia := Some(Attach)), false) else (c, true)
    case Clear(target, marked) =>
      (if marked && c.agentId == Some(target) then c.(agentId := None, agentName := None) else c, !marked)
    case Check(bound, minted) =>
      if !minted then (c, true)
      else (Materialise(c, bound), false)
  }

  // ----- a request alone on its socket -----

  /** `requireVerifiedAgent`: `None` when it throws. */
  function RequireVerified(c: Ctx, r: Request): Option<(Ctx, string)> {
    if c.boundVia == Some(Signature) && c.agentId.Some? then Some((c, c.agentId.value))
    else
      var bound := OrElse(c.agentId, r.actor);
      if bound == None || !r.daemonMinted(bound.value) then None
      else Some((Materialise(c, bound.value), bound.value))
  }

  /** A self-scoped handler that nothing interrupts is `requireVerifiedAgent`. */
  lemma SelfScopedRequires(c: Ctx, r: Request)
    requires r.kind == SelfScoped
    ensures Handle(c, r) == match RequireVerified(c, r) case None => (c, true) case Some(p) => (p.0, false)
  {
  }

  function Verify(c: Ctx, e: Envelope): Ctx {
    BindSigner(Restore(c), e)
  }

  function Handle(c: Ctx, r: Request): (Ctx, bool) {
    match EnterHandler(c, r)
    case Running(_, _, todo) => Complete(c, todo)
    case Finished(Ran(_, _, failed)) => (c, failed)
    case _ => (c, false)
  }

  function Serve(c: Ctx, r: Request): (Ctx, Outcome) {
    if !r.admitted then (c, NotAdmitted)
    else
      var v := Verify(c, r.envelope);
      match AtGate(v, r)
      case Permitting(_, agent) =>
        if !r.permitted(agent) then (v, NotPermitted)
        else if r.closing then (v, ShuttingDown)
        else (Handle(v, r).0, Ran(v.agentId, v.boundVia, Handle(v, r).1))
      case Finished(refused) => (v, refused)
      case _ => (v, NotAdmitted)
  }

  function ServeAll(c: Ctx, rs: seq<Request>): Ctx
    decreases rs
  {
    if rs == [] then c else ServeAll(Serve(c, rs[0]).0, rs[1..])
  }

  // ----- requests in flight together -----

  type Pid = nat

  datatype World = World(ctx: Ctx, calls: map<Pid, Call>)

  datatype Event = Begin(pid: Pid, r: Request) | Bind(pid: Pid) | Gate(pid: Pid) | Start(pid: Pid) | Finish(pid: Pid)

  function Put(w: World, p: Pid, c: Call): World {
    w.(calls := w.calls[p := c])
  }

  /** One stretch of one request. An event whose request is elsewhere does nothing. */
  function Step(w: World, e: Event): World {
    if e.Begin? then
      if e.pid in w.calls then w
      else if !e.r.admitted then Put(w, e.pid, Finished(NotAdmitted))
      else Put(w.(ctx := Restore(w.ctx)), e.pid, Verifying(e.r))
    else if e.pid !in w.calls then w
    else match (e, w.calls[e.pid])
      case (Bind(p), Verifying(r)) => Put(w.(ctx := BindSigner(w.ctx, r.envelope)), p, Checked(r))
      case (Gate(p), Checked(r)) => Put(w, p, AtGate(w.ctx, r))
      case (Start(p), Permitting(r, agent)) => Put(w, p, AtStart(w.ctx, r, agent))
      case (Finish(p), Running(id, via, todo)) =>
        Put(w.(ctx := Complete(w.ctx, todo).0), p, Finished(Ran(id, via, Complete(w.ctx, todo).1)))
      case _ => w
  }

  function Run(w: World, es: seq<Event>): World
    decreases es
  {
    if es == [] then w else Run(Step(w, es[0]), es[1..])
  }

  // ----- the socket itself -----

  class SocketContext {
    var agentId: Option<string>
    var agentName: Option<string>
    var boundVia: Option<Via>
    var verifiedKid: Option<string>
    var preSignatureAgentId: Option<string>
    var preSignatureAgentName: Option<string>
    var preSignatureBoundVia: Option<Via>
    var keyOrigin: Option<Origin>

    function Value(): Ctx
      reads this
    {
      Ctx(agentId, agentName, boundVia, verifiedKid,
          preSignatureAgentId, preSignatureAgentName, preSignatureBoundVia, keyOrigin)
    }

    constructor ()
      ensures Value() == FRESH
    {
      agentId, agentName, boundVia, verifiedKid := None, None, None, None;
      preSignatureAgentId, preSignatureAgentName, preSignatureBoundVia, keyOrigin := None, None, None, None;
    }

    method ResetSignature()
      modifies this
      ensures Value() == Restore(old(Value()))
    {
      if boundVia == Some(Signature) {
        agentId := preSignatureAgentId;
        agentName := preSignatureAgentName;
        boundVia := preSignatureBoundVia;
        verifiedKid := None;
        preSignatureAgentId, preSignatureAgentName, preSignatureBoundVia := None, None, None;
      }
    }

    method BindVerified(envelope: Envelope)
      modifies this
      ensures Value() == BindSigner(old(Value()), envelope)
    {
      match envelope {
        case Verified(signer, kid) =>
          preSignatureAgentId := agentId;
          preSignatureAgentName := agentName;
          preSignatureBoundVia := boundVia;
          agentId := Some(signer);
          boundVia := Some(Signature);
          verifiedKid := Some(kid);
        case _ =>
      }
    }

    /** Both halves, when nothing comes between them. */
    method VerifyOrWarn(envelope: Envelope)
      modifies this
      ensures Value() == Verify(old(Value()), envelope)
    {
      ResetSignature();
      BindVerified(envelope);
    }

    method PassGates(r: Request) returns (call: Call)
      ensures call == AtGate(Value(), r)
    {
      if r.signatureRequired && !r.envelope.Verified? { return Finished(SignatureRequired); }
      if !r.identityExempt && agentId == None && r.actor == None { return Finished(NotRegistered); }
      call := Permitting(r, if agentId.Some? then agentId else r.actor);
    }

    method StartHandler(r: Request) returns (call: Call)
      ensures call == EnterHandler(Value(), r)
    {
      match r.kind {
        case Registering(id, name, stored, enrolled) =>
          call := Running(agentId, boundVia, Store(id, name, stored, enrolled));
        case Attaching(id, name, live) =>
          call := Running(agentId, boundVia, LookUp(id, name, live));
        case Ending(marked) =>
          if boundVia != Some(Signature) || agentId == None { return Finished(Ran(agentId, boundVia, true)); }
          call := Running(agentId, boundVia, Clear(agentId.value, marked));
        case SelfScoped =>
          if boundVia == Some(Signature) && agentId.Some? { return Finished(Ran(agentId, boundVia, false)); }
          var bound := if agentId.Some? then agentId else r.actor;
          if bound == None { return Finished(Ran(agentId, boundVia, true)); }
          call := Running(agentId, boundVia, Check(bound.value, r.daemonMinted(bound.value)));
        case Other =>
          call := Finished(Ran(agentId, boundVia, false));
      }
    }

    method CompleteHandler(todo: Todo) returns (failed: bool)
      modifies this
      ensures (Value(), failed) == Complete(old(Value()), todo)
    {
      failed := false;
      match todo {
        case Store(id, name, stored, enrolled) =>
          if !stored { return true; }
          agentId, agentName, boundVia := Some(id), Some(name), Some(Register);
          failed := !enrolled;
        case LookUp(id, name, live) =>
          if !live { return true; }
          agentId, agentName, boundVia := Some(id), name, Some(Attach);
        case Clear(target, marked) =>
          if !marked { return true; }
          if agentId == Some(target) { agentId, agentName := None, None; }
        case Check(bound, minted) =>
          if !minted { return true; }
          if agentId == None { agentId, boundVia := Some(bound), Some(Param); }
          keyOrigin := Some(DaemonKey);
      }
    }

    /** Both stretches of `requireVerifiedAgent`, when nothing comes between them. */
    method RequireVerifiedAgent(r: Request) returns (principal: Option<string>)
      modifies this
      ensures match RequireVerified(old(Value()), r)
        case None => principal == None && Value() == old(Value())
        case Some(p) => principal == Some(p.1) && Value() == p.0
    {
      if boundVia == Some(Signature) && agentId.Some? { return agentId; }
      var bound := if agentId.Some? then agentId else r.actor;
      if bound == None { return None; }
      var failed := CompleteHandler(Check(bound.value, r.daemonMinted(bound.value)));
      principal := if failed then None else bound;
    }

    method RunHandler(r: Request) returns (failed: bool)
      modifies this
      ensures (Value(), failed) == Handle(old(Value()), r)
    {
      var call := StartHandler(r);
      if call.Running? {
        failed := CompleteHandler(call.todo);
      } else {
        failed := call.Finished? && call.outcome.Ran? && call.outcome.failed;
      }
    }

    /** A request that meets no other on the socket. */
    method Dispatch(r: Request) returns (outcome: Outcome)
      modifies this
      ensures (Value(), outcome) == Serve(old(Value()), r)
    {
      if !r.admitted { return NotAdmitted; }
      VerifyOrWarn(r.envelope);
      var call := PassGates(r);
      if call.Finished? { return call.outcome; }
      if !r.permitted(call.agent) { return NotPermitted; }
      if r.closing { return ShuttingDown; }
      var id, via := agentId, boundVia;
      var failed := RunHandler(r);
      outcome := Ran(id, via, failed);
    }
  }

  // ----- one request at a time -----

  /** The snapshot taken before a signature is never itself a signature binding. */
  ghost predicate Valid(c: Ctx) {
    c.boundVia == Some(Signature) ==> c.preBoundVia != Some(Signature)
  }

  /** The identity of the connection, whoever signed the last request. */
  function Connection(c: Ctx): (Option<string>, Option<string>, Option<Via>) {
    (Restore(c).agentId, Restore(c).agentName, Restore(c).boundVia)
  }

  predicate Binds(r: Request) {
    r.kind.Registering? || r.kind.Attaching?
  }

  /** A verified signature on a request that does not bind the connection. */
  predicate Passing(r: Request) {
    r.envelope.Verified? && !Binds(r)
  }

  function Erase(rs: seq<Request>): seq<Request> {
    if rs == [] then []
    else (if Passing(rs[0]) then [] else [rs[0]]) + Erase(rs[1..])
  }

  lemma {:induction false} ServeAllValid(c: Ctx, rs: seq<Request>)
    requires Valid(c)
    ensures Valid(ServeAll(c, rs))
    decreases rs
  {
    if rs != [] {
      ServeValid(c, rs[0]);
      ServeAllValid(Serve(c, rs[0]).0, rs[1..]);
    }
  }

  /** After any history on the socket, a method that requires a signature runs
      only as the signer of that request's own envelope, and any handler that
      sees a signature binding sees its own request's. */
  lemma RunsAsItsOwnSigner(c: Ctx, history: seq<Request>, r: Request)
    requires Valid(c)
    ensures var o := Serve(ServeAll(c, history), r).1;
      && (o.Ran? && r.signatureRequired ==> r.envelope.Verified?)
      && (o.Ran? && r.envelope.Verified? ==> o.agentId == Some(r.envelope.signer) && o.via == Some(Signature))
      && (o.Ran? && !r.envelope.Verified? ==> o.via != Some(Signature))
  {
    ServeAllValid(c, history);
  }

  lemma PassingKeepsConnection(c: Ctx, r: Request)
    requires Valid(c) && Passing(r)
    ensures Connection(Serve(c, r).0) == Connection(c)
  {
  }

  /** The same binding, and the same snapshot under a signature. */
  ghost predicate Alike(c: Ctx, d: Ctx) {
    && c.agentId == d.agentId && c.agentName == d.agentName && c.boundVia == d.boundVia
    && (c.boundVia == Some(Signature) ==>
        c.preAgentId == d.preAgentId && c.preAgentName == d.preAgentName && c.preBoundVia == d.preBoundVia)
  }

  lemma VerifiedAlike(c: Ctx, d: Ctx, e: Envelope)
    requires Valid(c) && Valid(d) && Connection(c) == Connection(d)
    ensures Alike(Verify(c, e), Verify(d, e))
  {
  }

  lemma HandledAlike(c: Ctx, d: Ctx, r: Request)
    requires Alike(c, d)
    ensures Alike(Handle(c, r).0, Handle(d, r).0) && Handle(c, r).1 == Handle(d, r).1
  {
  }

  /** Two sockets with the same connection identity serve a request alike, and
      keep the same connection identity. */
  lemma SameConnection(c: Ctx, d: Ctx, r: Request)
    requires Valid(c) && Valid(d) && Connection(c) == Connection(d)
    ensures Connection(Serve(c, r).0) == Connection(Serve(d, r).0)
    ensures Serve(c, r).1 == Serve(d, r).1
  {
    var v, u := Verify(c, r.envelope), Verify(d, r.envelope);
    VerifiedAlike(c, d, r.envelope);
    HandledAlike(v, u, r);
    assert AtGate(v, r) == AtGate(u, r);
  }

  lemma ServeValid(c: Ctx, r: Request)
    requires Valid(c)
    ensures Valid(Serve(c, r).0)
  {
  }

  lemma {:induction false} ErasedConnection(c: Ctx, d: Ctx, rs: seq<Request>)
    requires Valid(c) && Valid(d) && Connection(c) == Connection(d)
    ensures Connection(ServeAll(c, rs)) == Connection(ServeAll(d, Erase(rs)))
    decreases rs
  {
    if rs != [] {
      var c' := Serve(c, rs[0]).0;
      ServeValid(c, rs[0]);
      ServeValid(d, rs[0]);
      if Passing(rs[0]) {
        PassingKeepsConnection(c, rs[0]);
        assert Erase(rs) == Erase(rs[1..]);
        ErasedConnection(c', d, rs[1..]);
      } else {
        SameConnection(c, d, rs[0]);
        assert Erase(rs)[0] == rs[0] && Erase(rs)[1..] == Erase(rs[1..]);
        ErasedConnection(c', Serve(d, rs[0]).0, rs[1..]);
      }
    }
  }

  /** What any request meets on a socket, and in particular the identity an
      unsigned one sees, is what it would meet had the signed requests other
      than register and attach never been sent. */
  lemma SignedRequestsLeaveNoTrace(c: Ctx, history: seq<Request>, r: Request)
    requires Valid(c)
    ensures Serve(ServeAll(c, history), r).1 == Serve(ServeAll(c, Erase(history)), r).1
    ensures Connection(ServeAll(c, history)) == Connection(ServeAll(c, Erase(history)))
  {
    ServeAllValid(c, history);
    ServeAllValid(c, Erase(history));
    ErasedConnection(c, c, history);
    SameConnection(ServeAll(c, history), ServeAll(c, Erase(history)), r);
  }

  // ----- a request alone is a run of its steps -----

  function Solo(p: Pid, r: Request): seq<Event> {
    [Begin(p, r), Bind(p), Gate(p), Start(p), Finish(p)]
  }

  lemma RunFive(w: World, a: Event, b: Event, c: Event, d: Event, e: Event)
    ensures Run(w, [a, b, c, d, e]) == Step(Step(Step(Step(Step(w, a), b), c), d), e)
  {
    var v, u := Step(w, a), Step(Step(w, a), b);
    assert [a, b, c, d, e][1..] == [b, c, d, e] && [b, c, d, e][1..] == [c, d, e];
    assert Run(w, [a, b, c, d, e]) == Run(v, [b, c, d, e]) == Run(u, [c, d, e]);
    RunThree(u, c, d, e);
  }

  lemma RunThree(w: World, a: Event, b: Event, c: Event)
    ensures Run(w, [a, b, c]) == Step(Step(Step(w, a), b), c)
  {
    var v, u := Step(w, a), Step(Step(w, a), b);
    assert [a, b, c][1..] == [b, c] && [b, c][1..] == [c] && [c][1..] == [];
    assert Run(w, [a, b, c]) == Run(v, [b, c]) == Run(u, [c]) == Run(Step(u, c), []);
  }

  lemma SoloGated(w: World, p: Pid, r: Request)
    requires p !in w.calls && r.admitted
    ensures var v := Verify(w.ctx, r.envelope);
      Step(Step(Step(w, Begin(p, r)), Bind(p)), Gate(p)) == World(v, w.calls[p := AtGate(v, r)])
  {
    var began := Step(w, Begin(p, r));
    var bound := Step(began, Bind(p));
    assert began == World(Restore(w.ctx), w.calls[p := Verifying(r)]);
    assert bound == World(Verify(w.ctx, r.envelope), w.calls[p := Checked(r)]);
  }

  lemma SoloStarted(w: World, p: Pid, r: Request, agent: Option<string>)
    requires p in w.calls && w.calls[p] == Permitting(r, agent)
    ensures Step(Step(w, Start(p)), Finish(p)) ==
      if !r.permitted(agent) then Put(w, p, Finished(NotPermitted))
      else if r.closing then Put(w, p, Finished(ShuttingDown))
      else World(Handle(w.ctx, r).0, w.calls[p := Finished(Ran(w.ctx.agentId, w.ctx.boundVia, Handle(w.ctx, r).1))])
  {
    var started := Step(w, Start(p));
    assert started == Put(w, p, AtStart(w.ctx, r, agent));
  }

  /** When no step of another request comes between, the five steps of a request
      do what `Serve` says. */
  lemma SoloIsServe(w: World, p: Pid, r: Request)
    requires p !in w.calls
    ensures Run(w, Solo(p, r)) == World(Serve(w.ctx, r).0, w.calls[p := Finished(Serve(w.ctx, r).1)])
  {
    RunFive(w, Begin(p, r), Bind(p), Gate(p), Start(p), Finish(p));
    if r.admitted {
      SoloGated(w, p, r);
      var gated := World(Verify(w.ctx, r.envelope), w.calls[p := AtGate(Verify(w.ctx, r.envelope), r)]);
      if gated.calls[p].Permitting? { SoloStarted(gated, p, r, gated.calls[p].agent); }
    }
  }

  lemma {:induction false} RunThen(w: World, a: seq<Event>, b: seq<Event>)
    ensures Run(w, a + b) == Run(Run(w, a), b)
    decreases a
  {
    if a == [] {
      assert a + b == b;
    } else {
      assert (a + b)[0] == a[0] && (a + b)[1..] == a[1..] + b;
      RunThen(Step(w, a[0]), a[1..], b);
    }
  }

  /** The steps of requests that come one after the other. */
  function Serial(ps: seq<Pid>, rs: seq<Request>): seq<Event>
    requires |ps| == |rs|
  {
    if rs == [] then [] else Solo(ps[0], rs[0]) + Serial(ps[1..], rs[1..])
  }

  /** Requests in turn, as steps: the socket ends where `ServeAll` ends, and each
      request is answered as `Serve` answers it after those before it. */
  lemma {:induction false} SerialRun(w: World, ps: seq<Pid>, rs: seq<Request>)
    requires |ps| == |rs| && Distinct(ps) && forall p <- ps :: p !in w.calls
    ensures var w' := Run(w, Serial(ps, rs));
      && w'.ctx == ServeAll(w.ctx, rs)
      && (forall p <- w.calls :: p in w'.calls && w'.calls[p] == w.calls[p])
      && forall i :: 0 <= i < |rs| ==>
           && ps[i] in w'.calls
           && w'.calls[ps[i]] == Finished(Serve(ServeAll(w.ctx, rs[..i]), rs[i]).1)
    decreases rs
  {
    hide Step, Serve;
    if rs != [] {
      var w0 := Run(w, Solo(ps[0], rs[0]));
      SoloIsServe(w, ps[0], rs[0]);
      RunThen(w, Solo(ps[0], rs[0]), Serial(ps[1..], rs[1..]));
      SerialRun(w0, ps[1..], rs[1..]);
      var w' := Run(w, Serial(ps, rs));
      forall i | 0 <= i < |rs|
        ensures ps[i] in w'.calls && w'.calls[ps[i]] == Finished(Serve(ServeAll(w.ctx, rs[..i]), rs[i]).1)
      {
        if i == 0 {
          assert ps[0] in w0.calls;
        } else {
          assert ps[1..][i - 1] == ps[i] && rs[1..][i - 1] == rs[i];
          assert rs[..i][0] == rs[0] && rs[..i][1..] == rs[1..][..i - 1];
        }
      }
    }
  }

  // ----- who holds the signature slot -----

  /** What binds the socket, as the order of the steps alone tells it: nobody's
      signature, the signature of an agent, or one whose session has ended. */
  datatype Slot = Plain | By(agent: string) | Ended

  /** The binding in force and the one in the snapshot. */
  datatype Slots = Slots(cur: Slot, pre: Slot)

  predicate Resets(w: World, e: Event) {
    e.Begin? && e.pid !in w.calls && e.r.admitted
  }

  predicate Signs(w: World, e: Event) {
    e.Bind? && e.pid in w.calls && w.calls[e.pid].Verifying? && w.calls[e.pid].r.envelope.Verified?
  }

  predicate Finishes(w: World, e: Event) {
    e.Finish? && e.pid in w.calls && w.calls[e.pid].Running?
  }

  /** A register or attach that binds the connection. */
  predicate Connects(w: World, e: Event) {
    Finishes(w, e) &&
    match w.calls[e.pid].todo
    case Store(_, _, stored, _) => stored
    case LookUp(_, _, live) => live
    case _ => false
  }

  predicate Ends(w: World, e: Event, agent: string) {
    Finishes(w, e) && w.calls[e.pid].todo == Clear(agent, true)
  }

  function SlotsAfter(t: Slots, w: World, e: Event): Slots {
    if Resets(w, e) then if t.cur == Plain then t else Slots(t.pre, Plain)
    else if Signs(w, e) then Slots(By(w.calls[e.pid].r.envelope.signer), t.cur)
    else if Connects(w, e) then Slots(Plain, Plain)
    else if t.cur.By? && Ends(w, e, t.cur.agent) then t.(cur := Ended)
    else if Finishes(w, e) && w.calls[e.pid].todo.Check? && w.calls[e.pid].todo.minted && t.cur == Ended then
      Slots(Plain, Plain)
    else t
  }

  function SlotsRun(t: Slots, w: World, es: seq<Event>): Slots
    decreases es
  {
    if es == [] then t else SlotsRun(SlotsAfter(t, w, es[0]), Step(w, es[0]), es[1..])
  }

  ghost predicate Shows(s: Slot, agentId: Option<string>, via: Option<Via>) {
    match s
    case Plain => via != Some(Signature)
    case By(agent) => via == Some(Signature) && agentId == Some(agent)
    case Ended => via == Some(Signature) && agentId == None
  }

  ghost predicate Tracks(t: Slots, c: Ctx) {
    Shows(t.cur, c.agentId, c.boundVia) && (t.cur != Plain ==> Shows(t.pre, c.preAgentId, c.preBoundVia))
  }

  lemma StepTracks(t: Slots, w: World, e: Event)
    requires Tracks(t, w.ctx)
    ensures Tracks(SlotsAfter(t, w, e), Step(w, e).ctx)
  {
  }

  lemma {:induction false} RunTracks(t: Slots, w: World, es: seq<Event>)
    requires Tracks(t, w.ctx)
    ensures Tracks(SlotsRun(t, w, es), Run(w, es).ctx)
    decreases es
  {
    if es != [] {
      StepTracks(t, w, es[0]);
      RunTracks(SlotsAfter(t, w, es[0]), Step(w, es[0]), es[1..]);
    }
  }

  const IDLE := World(FRESH, map[])
  const FREE := Slots(Plain, Plain)

  /** `p` has passed its gates, and its handler starts at the next step. */
  predicate Starts(w: World, p: Pid) {
    p in w.calls && w.calls[p].Permitting? && w.calls[p].r.permitted(w.calls[p].agent) && !w.calls[p].r.closing
  }

  /** The identity a handler started with. */
  function Seen(c: Call): Option<(Option<string>, Option<Via>)> {
    match c
    case Running(id, via, _) => Some((id, via))
    case Finished(Ran(id, via, _)) => Some((id, via))
    case _ => None
  }

  lemma StartSees(w: World, p: Pid)
    requires Starts(w, p)
    ensures var w' := Step(w, Start(p));
      p in w'.calls && Seen(w'.calls[p]) == Some((w.ctx.agentId, w.ctx.boundVia))
  {
  }

  /** Over every interleaving: a handler starts as `agent` by signature exactly
      when the order of the steps leaves a signature of `agent` in force. For
      the request's own signer this says when it runs as that signer. */
  lemma RunsAsSignerIff(t: Slots, w: World, es: seq<Event>, p: Pid, agent: string)
    requires Tracks(t, w.ctx) && Starts(Run(w, es), p)
    ensures var w' := Step(Run(w, es), Start(p));
      p in w'.calls
      && (Seen(w'.calls[p]) == Some((Some(agent), Some(Signature))) <==> SlotsRun(t, w, es).cur == By(agent))
  {
    RunTracks(t, w, es);
    StartSees(Run(w, es), p);
  }

  /** A request past its gates that requires a signature has one. */
  ghost predicate GatesKept(w: World) {
    forall p <- w.calls :: w.calls[p].Permitting? && w.calls[p].r.signatureRequired ==> w.calls[p].r.envelope.Verified?
  }

  lemma StepGatesKept(w: World, e: Event)
    requires GatesKept(w)
    ensures GatesKept(Step(w, e))
  {
  }

  /** Over every interleaving: a method that requires a signature starts only for
      a verified envelope. */
  lemma {:induction false} RequiredIsVerified(w: World, es: seq<Event>)
    requires GatesKept(w)
    ensures GatesKept(Run(w, es))
    ensures forall p :: Starts(Run(w, es), p) && Run(w, es).calls[p].r.signatureRequired ==>
      Run(w, es).calls[p].r.envelope.Verified?
    decreases es
  {
    hide Step;
    if es != [] {
      StepGatesKept(w, es[0]);
      RequiredIsVerified(Step(w, es[0]), es[1..]);
    }
  }

  /** A step that ends the force of a signature of `agent`: a reset, unless the
      snapshot it restores is a signature of the same agent, a signature of
      another agent, a register or attach, or the end of the agent's session. */
  predicate Takes(t: Slots, w: World, e: Event, agent: string) {
    || (Resets(w, e) && t.pre != By(agent))
    || (Signs(w, e) && w.calls[e.pid].r.envelope.signer != agent)
    || Connects(w, e)
    || Ends(w, e, agent)
  }

  predicate Untaken(t: Slots, w: World, es: seq<Event>, agent: string)
    decreases es
  {
    es == [] || (!Takes(t, w, es[0], agent) && Untaken(SlotsAfter(t, w, es[0]), Step(w, es[0]), es[1..], agent))
  }

  /** The signature of `agent` is in force before, between and after all steps. */
  predicate InForce(t: Slots, w: World, es: seq<Event>, agent: string)
    decreases es
  {
    t.cur == By(agent) && (es == [] || InForce(SlotsAfter(t, w, es[0]), Step(w, es[0]), es[1..], agent))
  }

  /** From its bind on, a signature stays in force exactly as long as no step of
      any request takes it. */
  lemma {:induction false} InForceIff(t: Slots, w: World, es: seq<Event>, agent: string)
    requires t.cur == By(agent)
    ensures InForce(t, w, es, agent) <==> Untaken(t, w, es, agent)
    ensures InForce(t, w, es, agent) ==> SlotsRun(t, w, es).cur == By(agent)
    decreases es
  {
    if es != [] {
      var t' := SlotsAfter(t, w, es[0]);
      assert t'.cur == By(agent) <==> !Takes(t, w, es[0], agent);
      if t'.cur == By(agent) { InForceIff(t', Step(w, es[0]), es[1..], agent); }
    }
  }

  /** Between a request's own bind and its handler start: its signature is in
      force throughout exactly when no step takes it, and then it runs as its
      own signer. */
  lemma OwnSignerWindow(t: Slots, w: World, p: Pid, es: seq<Event>)
    requires Tracks(t, w.ctx) && Signs(w, Bind(p)) && Starts(Run(Step(w, Bind(p)), es), p)
    ensures var t', w' := SlotsAfter(t, w, Bind(p)), Step(w, Bind(p));
      var signer := w.calls[p].r.envelope.signer;
      var started := Step(Run(w', es), Start(p));
      && (InForce(t', w', es, signer) <==> Untaken(t', w', es, signer))
      && p in started.calls
      && (Untaken(t', w', es, signer) ==> Seen(started.calls[p]) == Some((Some(signer), Some(Signature))))
  {
    var t', w', signer := SlotsAfter(t, w, Bind(p)), Step(w, Bind(p)), w.calls[p].r.envelope.signer;
    StepTracks(t, w, Bind(p));
    InForceIff(t', w', es, signer);
    RunsAsSignerIff(t', w', es, p, signer);
  }

  predicate NoneSigns(w: World, es: seq<Event>)
    decreases es
  {
    es == [] || (!Signs(w, es[0]) && NoneSigns(Step(w, es[0]), es[1..]))
  }

  predicate StaysFree(t: Slots, w: World, es: seq<Event>)
    decreases es
  {
    t.cur == Plain && (es == [] || StaysFree(SlotsAfter(t, w, es[0]), Step(w, es[0]), es[1..]))
  }

  /** A reset that finds no signature in the snapshot leaves the slot free, and it
      stays free exactly until a request signs. */
  lemma {:induction false} StaysFreeIff(t: Slots, w: World, es: seq<Event>)
    requires t.cur == Plain
    ensures StaysFree(t, w, es) <==> NoneSigns(w, es)
    ensures StaysFree(t, w, es) ==> SlotsRun(t, w, es).cur == Plain
    decreases es
  {
    if es != [] {
      var t' := SlotsAfter(t, w, es[0]);
      assert t'.cur == Plain <==> !Signs(w, es[0]);
      if t'.cur == Plain { StaysFreeIff(t', Step(w, es[0]), es[1..]); }
    }
  }

  /** Between a request's own reset and its bind: with no signature in the
      snapshot, the bind finds the slot free if no other request signs before it. */
  lemma BindFindsFree(t: Slots, w: World, p: Pid, r: Request, es: seq<Event>)
    requires Tracks(t, w.ctx) && t.pre == Plain && Resets(w, Begin(p, r))
    requires NoneSigns(Step(w, Begin(p, r)), es)
    ensures Run(Step(w, Begin(p, r)), es).ctx.boundVia != Some(Signature)
  {
    var t', w' := SlotsAfter(t, w, Begin(p, r)), Step(w, Begin(p, r));
    StepTracks(t, w, Begin(p, r));
    StaysFreeIff(t', w', es);
    RunTracks(t', w', es);
  }

  // ----- the run without the signed requests -----

  type Binding = (Option<string>, Option<string>, Option<Via>)

  /** The binding in force. */
  function Current(c: Ctx): Binding {
    (c.agentId, c.agentName, c.boundVia)
  }

  /** A run, the run with the requests in `gone` left out, and these requests. */
  datatype Pair = Pair(w: World, v: World, gone: set<Pid>)

  /** A verified request that binds no connection begins. */
  predicate Vanishes(w: World, e: Event) {
    e.Begin? && e.pid !in w.calls && Passing(e.r)
  }

  function GoneAfter(s: Pair, e: Event): set<Pid> {
    if Vanishes(s.w, e) then s.gone + {e.pid} else s.gone
  }

  function StepPair(s: Pair, e: Event): Pair {
    Pair(Step(s.w, e), if e.pid in GoneAfter(s, e) then s.v else Step(s.v, e), GoneAfter(s, e))
  }

  function RunPair(s: Pair, es: seq<Event>): Pair
    decreases es
  {
    if es == [] then s else RunPair(StepPair(s, es[0]), es[1..])
  }

  /** The steps that are left of a run when the requests that vanish are left out. */
  function Kept(s: Pair, es: seq<Event>): seq<Event>
    decreases es
  {
    if es == [] then []
    else (if es[0].pid in GoneAfter(s, es[0]) then [] else [es[0]]) + Kept(StepPair(s, es[0]), es[1..])
  }

  /** Both halves of a pair are runs. */
  lemma {:induction false} RunPairRuns(s: Pair, es: seq<Event>)
    ensures RunPair(s, es).w == Run(s.w, es) && RunPair(s, es).v == Run(s.v, Kept(s, es))
    decreases es
  {
    hide Step, GoneAfter;
    if es != [] {
      RunPairRuns(StepPair(s, es[0]), es[1..]);
      if es[0].pid !in GoneAfter(s, es[0]) {
        assert Kept(s, es)[0] == es[0] && Kept(s, es)[1..] == Kept(StepPair(s, es[0]), es[1..]);
      } else {
        assert Kept(s, es) == Kept(StepPair(s, es[0]), es[1..]);
      }
    }
  }

  function CallOf(w: World, p: Pid): Option<Call> {
    if p in w.calls then Some(w.calls[p]) else None
  }

  /** The connection has the same identity, and every request that is left stands
      at the same place with the same answers. */
  ghost predicate Agree(s: Pair) {
    && Connection(s.w.ctx) == Connection(s.v.ctx)
    && forall p :: p !in s.gone ==> CallOf(s.w, p) == CallOf(s.v, p)
  }

  /** What is left to a request that vanishes. */
  predicate Fleeting(c: Call) {
    match c
    case Verifying(r) => Passing(r)
    case Checked(r) => Passing(r)
    case Permitting(r, _) => Passing(r)
    case Running(_, _, todo) => todo.Clear? || todo.Check?
    case Finished(_) => true
  }

  ghost predicate AllFleeting(s: Pair) {
    forall p <- s.gone :: p in s.w.calls && Fleeting(s.w.calls[p])
  }

  /** The identity of the connection after a first use of `bound` as actor. */
  function ParamBound(c: Ctx, bound: string): Binding {
    if c.agentId == None then (Some(bound), c.agentName, Some(Param)) else Connection(c)
  }

  /** A step that tells the two runs apart. Of a request that vanishes: a reset
      under which the snapshot was a signature, a signature over a different one,
      an end or a param binding that changes the connection. Of one that is left:
      a signature, a gate, a start, an end or a param binding that finds another
      binding in force, where that matters to it. */
  predicate Harms(s: Pair, e: Event) {
    var c, d := s.w.ctx, s.v.ctx;
    if Resets(s.w, e) then Passing(e.r) && c.boundVia == Some(Signature) && c.preBoundVia == Some(Signature)
    else if e.pid !in s.w.calls then false
    else if e.pid in s.gone then HarmsGone(c, e, s.w.calls[e.pid])
    else HarmsKept(c, d, e, s.w.calls[e.pid])
  }

  predicate HarmsGone(c: Ctx, e: Event, call: Call) {
    match (e, call)
    case (Bind(_), Verifying(r)) => Current(c) != Connection(c)
    case (Finish(_), Running(_, _, Clear(target, marked))) =>
      marked && c.boundVia != Some(Signature) && c.agentId == Some(target)
    case (Finish(_), Running(_, _, Check(bound, minted))) => minted && ParamBound(c, bound) != Connection(c)
    case _ => false
  }

  predicate HarmsKept(c: Ctx, d: Ctx, e: Event, call: Call) {
    match (e, call)
    case (Bind(_), Verifying(r)) => r.envelope.Verified? && Current(c) != Current(d)
    case (Gate(_), Checked(r)) =>
      && (r.signatureRequired ==> r.envelope.Verified?)
      && OrElse(c.agentId, r.actor) != OrElse(d.agentId, r.actor)
    case (Start(_), Permitting(r, agent)) =>
      r.permitted(agent) && !r.closing && (c.agentId, c.boundVia) != (d.agentId, d.boundVia)
    case (Finish(_), Running(_, _, Clear(target, marked))) =>
      && marked && Connection(c).0 == Some(target)
      && (c.boundVia == Some(Signature)) != (d.boundVia == Some(Signature))
    case (Finish(_), Running(_, _, Check(bound, minted))) => minted && ParamBound(c, bound) != ParamBound(d, bound)
    case _ => false
  }

  lemma StepFleeting(s: Pair, e: Event)
    requires AllFleeting(s)
    ensures AllFleeting(StepPair(s, e))
  {
  }

  lemma BeginAgreesIff(s: Pair, e: Event)
    requires Agree(s) && AllFleeting(s) && e.Begin?
    ensures Agree(StepPair(s, e)) <==> !Harms(s, e)
  {
  }

  lemma GoneAgreesIff(s: Pair, e: Event)
    requires Agree(s) && AllFleeting(s) && !e.Begin? && e.pid in s.gone
    ensures Agree(StepPair(s, e)) <==> !Harms(s, e)
  {
  }

  lemma KeptCall(s: Pair, p: Pid)
    requires Agree(s) && p !in s.gone
    ensures p in s.w.calls <==> p in s.v.calls
    ensures p in s.w.calls ==> s.w.calls[p] == s.v.calls[p]
  {
    assert CallOf(s.w, p) == CallOf(s.v, p);
  }

  lemma BindAgreesIff(s: Pair, e: Event)
    requires Agree(s) && AllFleeting(s) && e.Bind? && e.pid !in s.gone
    ensures Agree(StepPair(s, e)) <==> !Harms(s, e)
  {
    KeptCall(s, e.pid);
  }

  lemma GateAgreesIff(s: Pair, e: Event)
    requires Agree(s) && AllFleeting(s) && e.Gate? && e.pid !in s.gone
    ensures Agree(StepPair(s, e)) <==> !Harms(s, e)
  {
    KeptCall(s, e.pid);
  }

  lemma StartAgreesIff(s: Pair, e: Event)
    requires Agree(s) && AllFleeting(s) && e.Start? && e.pid !in s.gone
    ensures Agree(StepPair(s, e)) <==> !Harms(s, e)
  {
    KeptCall(s, e.pid);
  }

  lemma CompleteAgreesIff(c: Ctx, d: Ctx, e: Event, id: Option<string>, via: Option<Via>, todo: Todo)
    requires Connection(c) == Connection(d) && e.Finish?
    ensures Connection(Complete(c, todo).0) == Connection(Complete(d, todo).0) <==>
      !HarmsKept(c, d, e, Running(id, via, todo))
    ensures Complete(c, todo).1 == Complete(d, todo).1
  {
  }

  lemma FinishAgreesIff(s: Pair, e: Event)
    requires Agree(s) && AllFleeting(s) && e.Finish? && e.pid !in s.gone
    ensures Agree(StepPair(s, e)) <==> !Harms(s, e)
  {
    KeptCall(s, e.pid);
    if e.pid in s.w.calls && s.w.calls[e.pid].Running? {
      var call := s.w.calls[e.pid];
      CompleteAgreesIff(s.w.ctx, s.v.ctx, e, call.agentId, call.via, call.todo);
      hide Connection, Complete, HarmsKept;
      assert GoneAfter(s, e) == s.gone;
      assert Harms(s, e) <==> HarmsKept(s.w.ctx, s.v.ctx, e, call);
    }
  }

  predicate Harmless(s: Pair, es: seq<Event>)
    decreases es
  {
    es == [] || (!Harms(s, es[0]) && Harmless(StepPair(s, es[0]), es[1..]))
  }

  ghost predicate AgreeThroughout(s: Pair, es: seq<Event>)
    decreases es
  {
    Agree(s) && (es == [] || AgreeThroughout(StepPair(s, es[0]), es[1..]))
  }

  lemma {:induction false} AgreeThroughoutIff(s: Pair, es: seq<Event>)
    requires Agree(s) && AllFleeting(s)
    ensures AgreeThroughout(s, es) <==> Harmless(s, es)
    ensures Harmless(s, es) ==> Agree(RunPair(s, es))
    decreases es
  {
    hide Harms, StepPair, Agree, AllFleeting;
    if es != [] {
      StepFleeting(s, es[0]);
      if es[0].Begin? {
        BeginAgreesIff(s, es[0]);
      } else if es[0].pid in s.gone {
        GoneAgreesIff(s, es[0]);
      } else {
        match es[0] {
          case Bind(_) => BindAgreesIff(s, es[0]);
          case Gate(_) => GateAgreesIff(s, es[0]);
          case Start(_) => StartAgreesIff(s, es[0]);
          case Finish(_) => FinishAgreesIff(s, es[0]);
        }
      }
      if !Harms(s, es[0]) { AgreeThroughoutIff(StepPair(s, es[0]), es[1..]); }
    }
  }

  const BOTH_IDLE := Pair(IDLE, IDLE, {})

  /** Over every interleaving on a socket, compared with the run from which the
      verified requests other than register and attach are left out: at every
      moment the connection has the same identity and every other request has
      been met alike, exactly when no step harms. */
  lemma ErasureIff(es: seq<Event>)
    ensures AgreeThroughout(BOTH_IDLE, es) <==> Harmless(BOTH_IDLE, es)
    ensures Harmless(BOTH_IDLE, es) ==>
      Connection(Run(IDLE, es).ctx) == Connection(Run(IDLE, Kept(BOTH_IDLE, es)).ctx)
    ensures Harmless(BOTH_IDLE, es) ==>
      forall p :: p !in RunPair(BOTH_IDLE, es).gone ==>
        CallOf(Run(IDLE, es), p) == CallOf(Run(IDLE, Kept(BOTH_IDLE, es)), p)
  {
    AgreeThroughoutIff(BOTH_IDLE, es);
    RunPairRuns(BOTH_IDLE, es);
  }

  /** A handler starts with the identity of the connection exactly when no
      signature is in force, or the one in force equals the one beneath it. */
  lemma SeesConnectionIff(t: Slots, w: World, es: seq<Event>, p: Pid)
    requires Tracks(t, w.ctx) && Starts(Run(w, es), p)
    ensures var k, w', t' := Connection(Run(w, es).ctx), Step(Run(w, es), Start(p)), SlotsRun(t, w, es);
      p in w'.calls && (Seen(w'.calls[p]) == Some((k.0, k.2)) <==> t'.cur == Plain || t'.cur == t'.pre)
  {
    RunTracks(t, w, es);
    StartSees(Run(w, es), p);
  }

  // ----- overlaps that harm -----

  function SignedBy(agent: string): Request {
    Request(Other, Verified(agent, agent), true, false, None, true, _ => true, false, _ => false)
  }

  function Anonymous(): Request {
    Request(Other, Unsigned, false, true, None, true, _ => true, false, _ => false)
  }

  /** A self-scoped request whose params name an agent with a daemon-minted key. */
  function Naming(agent: string, envelope: Envelope): Request {
    Request(SelfScoped, envelope, envelope.Verified?, false, Some(agent), true, _ => true, false, _ => true)
  }

  /** Two signed requests, the second of which signs before the handler of the
      first starts: the first was permitted as its own signer and runs as the other. */
  lemma OverlapRunsAsOther(x: string, y: string)
    ensures var w := Run(IDLE, [Begin(0, SignedBy(x)), Bind(0), Gate(0), Begin(1, SignedBy(y)), Bind(1)]);
      && 0 in w.calls && w.calls[0] == Permitting(SignedBy(x), Some(x)) && Starts(w, 0)
      && 0 in Step(w, Start(0)).calls && Seen(Step(w, Start(0)).calls[0]) == Some((Some(y), Some(Signature)))
  {
    RunFive(IDLE, Begin(0, SignedBy(x)), Bind(0), Gate(0), Begin(1, SignedBy(y)), Bind(1));
  }

  /** Two signed requests that both reset before either signs: when both are done
      the snapshot holds the first signature, and an unsigned request after them
      starts as the first signer. */
  lemma OverlapSticks(x: string, y: string)
    ensures var w := Run(IDLE, [Begin(0, SignedBy(x)), Begin(1, SignedBy(y)), Bind(0), Bind(1), Gate(0)]);
      var v := Run(w, [Start(0), Gate(1), Start(1), Begin(2, Anonymous()), Bind(2)]);
      var u := Run(v, [Gate(2), Start(2), Finish(2)]);
      && !Valid(w.ctx) && 0 in v.calls && v.calls[0].Finished? && 1 in v.calls && v.calls[1].Finished?
      && 2 in u.calls && Seen(u.calls[2]) == Some((Some(x), Some(Signature)))
  {
    var w := Run(IDLE, [Begin(0, SignedBy(x)), Begin(1, SignedBy(y)), Bind(0), Bind(1), Gate(0)]);
    var v := Run(w, [Start(0), Gate(1), Start(1), Begin(2, Anonymous()), Bind(2)]);
    BothSign(x, y);
    assert !Valid(w.ctx);
    AnonymousResets(w, x, y);
    AnonymousStarts(v, x);
  }

  lemma AnonymousStarts(v: World, x: string)
    requires v.ctx == Ctx(Some(x), None, Some(Signature), None, None, None, None, None)
    requires 2 in v.calls && v.calls[2] == Checked(Anonymous())
    ensures var u := Run(v, [Gate(2), Start(2), Finish(2)]);
      2 in u.calls && Seen(u.calls[2]) == Some((Some(x), Some(Signature)))
  {
    RunThree(v, Gate(2), Start(2), Finish(2));
  }

  lemma BothSign(x: string, y: string)
    ensures var w := Run(IDLE, [Begin(0, SignedBy(x)), Begin(1, SignedBy(y)), Bind(0), Bind(1), Gate(0)]);
      && w.ctx == Ctx(Some(y), None, Some(Signature), Some(y), Some(x), None, Some(Signature), None)
      && w.calls == map[0 := Permitting(SignedBy(x), Some(y)), 1 := Checked(SignedBy(y))]
  {
    RunFive(IDLE, Begin(0, SignedBy(x)), Begin(1, SignedBy(y)), Bind(0), Bind(1), Gate(0));
  }

  lemma AnonymousResets(w: World, x: string, y: string)
    requires w.ctx == Ctx(Some(y), None, Some(Signature), Some(y), Some(x), None, Some(Signature), None)
    requires w.calls == map[0 := Permitting(SignedBy(x), Some(y)), 1 := Checked(SignedBy(y))]
    ensures var v := Run(w, [Start(0), Gate(1), Start(1), Begin(2, Anonymous()), Bind(2)]);
      && v.ctx == Ctx(Some(x), None, Some(Signature), None, None, None, None, None)
      && 0 in v.calls && v.calls[0].Finished? && 1 in v.calls && v.calls[1].Finished?
      && 2 in v.calls && v.calls[2] == Checked(Anonymous())
  {
    RunFive(w, Start(0), Gate(1), Start(1), Begin(2, Anonymous()), Bind(2));
  }

  lemma RunPairThree(s: Pair, a: Event, b: Event, c: Event, rest: seq<Event>)
    ensures RunPair(s, [a, b, c] + rest) == RunPair(StepPair(StepPair(StepPair(s, a), b), c), rest)
  {
    var es := [a, b, c] + rest;
    var s1, s2 := StepPair(s, a), StepPair(StepPair(s, a), b);
    assert es[1..] == [b, c] + rest && ([b, c] + rest)[1..] == [c] + rest && ([c] + rest)[1..] == rest;
    assert RunPair(s, es) == RunPair(s1, [b, c] + rest) == RunPair(s2, [c] + rest);
  }

  /** A signed request leaves a lasting binding: another request's reset takes the
      signature away between its gate and its start, so the handler falls back on
      the agent that the params name and binds the connection to it. */
  lemma OverlapLeavesTrace(x: string, b: string)
    ensures var es := [Begin(0, Naming(b, Verified(x, x))), Bind(0), Gate(0)] +
        [Begin(1, Anonymous()), Start(0), Finish(0)];
      && Connection(RunPair(BOTH_IDLE, es).w.ctx) == (Some(b), None, Some(Param))
      && Connection(RunPair(BOTH_IDLE, es).v.ctx) == (None, None, None)
      && !Harmless(BOTH_IDLE, es)
  {
    var r := Naming(b, Verified(x, x));
    RunPairThree(BOTH_IDLE, Begin(0, r), Bind(0), Gate(0), [Begin(1, Anonymous()), Start(0), Finish(0)]);
    var c := Ctx(Some(x), None, Some(Signature), Some(x), None, None, None, None);
    var s := Pair(World(c, map[0 := Permitting(r, Some(x))]), IDLE, {0});
    assert StepPair(StepPair(StepPair(BOTH_IDLE, Begin(0, r)), Bind(0)), Gate(0)) == s;
    assert [Begin(1, Anonymous()), Start(0), Finish(0)] == [Begin(1, Anonymous()), Start(0), Finish(0)] + [];
    RunPairThree(s, Begin(1, Anonymous()), Start(0), Finish(0), []);
    hide Step, StepPair, Harms;
    AgreeThroughoutIff(BOTH_IDLE, [Begin(0, r), Bind(0), Gate(0)] + [Begin(1, Anonymous()), Start(0), Finish(0)]);
  }

  /** A signed request takes a binding away: an unsigned one that starts under its
      signature runs as the signer, and does not bind the agent that it names. */
  lemma OverlapPreventsBinding(x: string, a: string)
    ensures var es := [Begin(0, Naming(a, Unsigned)), Bind(0), Gate(0)] + ([Begin(1, SignedBy(x)), Bind(1), Start(0)] +
        [Gate(1), Start(1), Finish(0)]);
      && Connection(RunPair(BOTH_IDLE, es).w.ctx) == (None, None, None)
      && Connection(RunPair(BOTH_IDLE, es).v.ctx) == (Some(a), None, Some(Param))
      && !Harmless(BOTH_IDLE, es)
  {
    var r := Naming(a, Unsigned);
    var s := Pair(Asked(a), Asked(a), {});
    var last := [Gate(1), Start(1), Finish(0)];
    UnsignedPermitted(a);
    SignedBeforeStart(x, a);
    var u := StepPair(StepPair(StepPair(s, Begin(1, SignedBy(x))), Bind(1)), Start(0));
    ThenFinished(x, a);
    hide Step, StepPair, Connection;
    RunPairThree(BOTH_IDLE, Begin(0, r), Bind(0), Gate(0), [Begin(1, SignedBy(x)), Bind(1), Start(0)] + last);
    RunPairThree(s, Begin(1, SignedBy(x)), Bind(1), Start(0), last);
    assert last == last + [];
    RunPairThree(u, Gate(1), Start(1), Finish(0), []);
    hide Harms;
    var es := [Begin(0, r), Bind(0), Gate(0)] + ([Begin(1, SignedBy(x)), Bind(1), Start(0)] + last);
    AgreeThroughoutIff(BOTH_IDLE, es);
  }

  /** The unsigned request has passed its gates. */
  function Asked(a: string): World {
    World(FRESH, map[0 := Permitting(Naming(a, Unsigned), Some(a))])
  }

  /** The unsigned request has run as the signer, or waits to bind its own agent. */
  function Overtaken(x: string, a: string): Pair {
    Pair(World(Ctx(Some(x), None, Some(Signature), Some(x), None, None, None, None),
               map[0 := Finished(Ran(Some(x), Some(Signature), false)), 1 := Checked(SignedBy(x))]),
         World(FRESH, map[0 := Running(None, None, Check(a, true))]),
         {1})
  }

  lemma UnsignedPermitted(a: string)
    ensures StepPair(StepPair(StepPair(BOTH_IDLE, Begin(0, Naming(a, Unsigned))), Bind(0)), Gate(0)) ==
      Pair(Asked(a), Asked(a), {})
  {
  }

  lemma SignedBeforeStart(x: string, a: string)
    ensures StepPair(StepPair(StepPair(Pair(Asked(a), Asked(a), {}), Begin(1, SignedBy(x))), Bind(1)), Start(0)) ==
      Overtaken(x, a)
  {
  }

  lemma ThenFinished(x: string, a: string)
    ensures var u := StepPair(StepPair(StepPair(Overtaken(x, a), Gate(1)), Start(1)), Finish(0));
      && Connection(u.w.ctx) == (None, None, None)
      && Connection(u.v.ctx) == (Some(a), None, Some(Param))
  {
  }
}
