/** Whom a socket is bound to: what `session.register`, `session.attach`, a named
    actor and `session.end` leave on the connection, and how long it lasts. */
module SocketBindings {
  import opened Options
  import opened SocketIdentity

  /** The binding beneath a signature, or the one in force. */
  function Lasting(c: Ctx): Binding {
    if c.boundVia == Some(Signature) then (c.preAgentId, c.preAgentName, c.preBoundVia)
    else (c.agentId, c.agentName, c.boundVia)
  }

  /** A step that moves the connection away from `k`: a signature over another one,
      a stored register or a live attach as somebody else, the end of the agent in
      force, or a first use of an actor while no agent is in force. */
  predicate Moves(k: Binding, w: World, e: Event) {
    || (Signs(w, e) && w.ctx.boundVia == Some(Signature))
    || (Finishes(w, e) &&
        match w.calls[e.pid].todo
        case Store(id, name, stored, _) => stored && k != (Some(id), Some(name), Some(Register))
        case LookUp(id, name, live) => live && k != (Some(id), name, Some(Attach))
        case Clear(target, marked) => marked && w.ctx.boundVia != Some(Signature) && w.ctx.agentId == Some(target)
        case Check(bound, minted) =>
          minted && w.ctx.agentId == None && k != (Some(bound), w.ctx.agentName, Some(Param)))
  }

  predicate NoneMoves(k: Binding, w: World, es: seq<Event>)
    decreases es
  {
    es == [] || (!Moves(k, w, es[0]) && NoneMoves(k, Step(w, es[0]), es[1..]))
  }

  /** The connection is bound as `k` before, between and after all steps. */
  predicate Stays(k: Binding, w: World, es: seq<Event>)
    decreases es
  {
    Lasting(w.ctx) == k && (es == [] || Stays(k, Step(w, es[0]), es[1..]))
  }

  lemma StepStaysIff(k: Binding, w: World, e: Event)
    requires Lasting(w.ctx) == k && k.2 != Some(Signature)
    ensures Lasting(Step(w, e).ctx) == k <==> !Moves(k, w, e)
  {
  }

  /** Over every interleaving: a binding of the connection lasts exactly until a
      step moves it. */
  lemma {:induction false} StaysIff(k: Binding, w: World, es: seq<Event>)
    requires Lasting(w.ctx) == k && k.2 != Some(Signature)
    ensures Stays(k, w, es) <==> NoneMoves(k, w, es)
    ensures NoneMoves(k, w, es) ==> Lasting(Run(w, es).ctx) == k
    decreases es
  {
    hide Step, Moves, Lasting;
    if es != [] {
      StepStaysIff(k, w, es[0]);
      if !Moves(k, w, es[0]) { StaysIff(k, Step(w, es[0]), es[1..]); }
    }
  }

  /** What a request meets that has a verified envelope if it needs one. */
  function GatedAs(k: Binding, r: Request): Call {
    if k.0.Some? then Permitting(r, k.0)
    else if r.actor.Some? then Permitting(r, r.actor)
    else if r.identityExempt then Permitting(r, None)
    else Finished(NotRegistered)
  }

  /** The gates ask about the agent in force, or else the actor that is named. */
  lemma GateAsks(w: World, q: Pid)
    requires q in w.calls && w.calls[q].Checked?
    ensures var r, g := w.calls[q].r, Step(w, Gate(q));
      && g.ctx == w.ctx && q in g.calls
      && g.calls[q] ==
           if r.signatureRequired && !r.envelope.Verified? then Finished(SignatureRequired)
           else GatedAs(Current(w.ctx), r)
  {
  }

  /** The permission gate refuses before the shutdown gate, and both leave the
      socket alone; a handler that has nothing to do on it is answered at once. */
  lemma StartAnswers(w: World, q: Pid)
    requires q in w.calls && w.calls[q].Permitting?
    ensures var r, agent, s := w.calls[q].r, w.calls[q].agent, Step(w, Start(q));
      && s.ctx == w.ctx && q in s.calls
      && (!r.permitted(agent) ==> s.calls[q] == Finished(NotPermitted))
      && (r.permitted(agent) && r.closing ==> s.calls[q] == Finished(ShuttingDown))
      && (Starts(w, q) && r.kind == Other ==> s.calls[q] == Finished(Ran(w.ctx.agentId, w.ctx.boundVia, false)))
  {
  }

  /** A verified envelope puts its signer and key in force, over the binding that
      was; any other envelope changes nothing. */
  lemma SignBinds(w: World, q: Pid)
    requires q in w.calls && w.calls[q].Verifying?
    ensures var r, s := w.calls[q].r, Step(w, Bind(q));
      && q in s.calls && s.calls[q] == Checked(r)
      && if r.envelope.Verified? then
           && Current(s.ctx) == (Some(r.envelope.signer), w.ctx.agentName, Some(Signature))
           && s.ctx.kid == Some(r.envelope.kid) && Lasting(s.ctx) == Current(w.ctx)
         else s.ctx == w.ctx
  {
  }

  /** A new request takes the signature off, with its key, and nothing else; one
      that is not admitted does not come so far. */
  lemma ResetUncovers(w: World, q: Pid, r: Request)
    requires q !in w.calls
    ensures var s := Step(w, Begin(q, r));
      && q in s.calls
      && if !r.admitted then s.ctx == w.ctx && s.calls[q] == Finished(NotAdmitted)
         else
           && s.calls[q] == Verifying(r) && Current(s.ctx) == Lasting(w.ctx)
           && (w.ctx.boundVia == Some(Signature) ==> s.ctx.kid == None && s.ctx.preBoundVia == None)
           && (w.ctx.boundVia != Some(Signature) ==> s.ctx == w.ctx)
  {
  }

  /** As long as the binding lasts and no signature is in force, every request is
      gated and every handler starts as the bound agent. */
  lemma MetAsBound(k: Binding, w: World, es: seq<Event>, q: Pid)
    requires Lasting(w.ctx) == k && k.2 != Some(Signature) && NoneMoves(k, w, es)
    requires Run(w, es).ctx.boundVia != Some(Signature) && q in Run(w, es).calls
    ensures var v := Run(w, es);
      && (v.calls[q].Checked? ==>
          var r, g := v.calls[q].r, Step(v, Gate(q));
          q in g.calls && g.calls[q] ==
            if r.signatureRequired && !r.envelope.Verified? then Finished(SignatureRequired) else GatedAs(k, r))
      && (Starts(v, q) ==> q in Step(v, Start(q)).calls && Seen(Step(v, Start(q)).calls[q]) == Some((k.0, k.2)))
  {
    StaysIff(k, w, es);
    var v := Run(w, es);
    if v.calls[q].Checked? { GateAsks(v, q); }
    if Starts(v, q) { StartSees(v, q); }
  }

  // ----- who is bound -----

  lemma {:induction false} AwaitKept(w: World, p: Pid, es: seq<Event>)
    requires p in w.calls && w.calls[p].Running? && Finish(p) !in es
    ensures p in Run(w, es).calls && Run(w, es).calls[p] == w.calls[p]
    decreases es
  {
    if es != [] { AwaitKept(Step(w, es[0]), p, es[1..]); }
  }

  /** The state when the handler of `p` comes back from its await. */
  function Back(w: World, p: Pid, es: seq<Event>): World {
    Run(Step(w, Start(p)), es)
  }

  /** A stored registration binds the connection to its id and name, whatever comes
      between its start and its end, and an unstored one leaves it alone. */
  lemma RegisterBinds(w: World, p: Pid, id: string, name: string, stored: bool, enrolled: bool, es: seq<Event>)
    requires Starts(w, p) && w.calls[p].r.kind == Registering(id, name, stored, enrolled) && Finish(p) !in es
    ensures var v, u := Back(w, p, es), Step(Back(w, p, es), Finish(p));
      && Lasting(u.ctx) == (if stored then (Some(id), Some(name), Some(Register)) else Lasting(v.ctx))
      && (stored ==> u.ctx.boundVia != Some(Signature))
      && p in u.calls && u.calls[p] == Finished(Ran(w.ctx.agentId, w.ctx.boundVia, !stored || !enrolled))
  {
    AwaitKept(Step(w, Start(p)), p, es);
  }

  /** A live attach binds it to the session's id and the name that was looked up. */
  lemma AttachBinds(w: World, p: Pid, id: string, name: Option<string>, live: bool, es: seq<Event>)
    requires Starts(w, p) && w.calls[p].r.kind == Attaching(id, name, live) && Finish(p) !in es
    ensures var v, u := Back(w, p, es), Step(Back(w, p, es), Finish(p));
      && Lasting(u.ctx) == (if live then (Some(id), name, Some(Attach)) else Lasting(v.ctx))
      && (live ==> u.ctx.boundVia != Some(Signature))
      && p in u.calls && u.calls[p] == Finished(Ran(w.ctx.agentId, w.ctx.boundVia, !live))
  {
    AwaitKept(Step(w, Start(p)), p, es);
  }

  /** A self-scoped request runs at once as its signer. Otherwise it asks for the
      key of the agent in force, or of the actor it names: with a daemon-minted key
      it succeeds, and the actor is bound if no agent is in force by then. */
  lemma ActorBinds(w: World, p: Pid, es: seq<Event>)
    requires Starts(w, p) && w.calls[p].r.kind == SelfScoped && Finish(p) !in es
    ensures var r, started := w.calls[p].r, Step(w, Start(p));
      var v, u := Back(w, p, es), Step(Back(w, p, es), Finish(p));
      var agent := if w.ctx.agentId.Some? then w.ctx.agentId else r.actor;
      && p in started.calls && p in u.calls
      && if w.ctx.boundVia == Some(Signature) && w.ctx.agentId.Some? then
           started.calls[p] == Finished(Ran(w.ctx.agentId, Some(Signature), false))
         else if agent == None then started.calls[p] == Finished(Ran(None, w.ctx.boundVia, true))
         else if !r.daemonMinted(agent.value) then
           u.ctx == v.ctx && u.calls[p] == Finished(Ran(w.ctx.agentId, w.ctx.boundVia, true))
         else
           && u.calls[p] == Finished(Ran(w.ctx.agentId, w.ctx.boundVia, false))
           && Lasting(u.ctx) ==
                (if v.ctx.agentId == None then (agent, v.ctx.agentName, Some(Param)) else Lasting(v.ctx))
           && (v.ctx.agentId == None ==> u.ctx.boundVia != Some(Signature))
           && u.ctx.keyOrigin == Some(DaemonKey)
  {
    var started := Step(w, Start(p));
    if started.calls[p].Running? { AwaitKept(started, p, es); } else { SettledKept(started, p, es); }
  }

  lemma {:induction false} SettledKept(w: World, p: Pid, es: seq<Event>)
    requires p in w.calls && w.calls[p].Finished?
    ensures p in Run(w, es).calls && Run(w, es).calls[p] == w.calls[p]
    decreases es
  {
    if es != [] { SettledKept(Step(w, es[0]), p, es[1..]); }
  }

  /** An end leaves nobody in force when it ends the agent in force, on the
      connection too if no signature is over it; another agent stays. */
  lemma EndUnbinds(w: World, p: Pid, marked: bool, es: seq<Event>)
    requires Starts(w, p) && w.calls[p].r.kind == Ending(marked) && Finish(p) !in es
    ensures var started, v, u := Step(w, Start(p)), Back(w, p, es), Step(Back(w, p, es), Finish(p));
      && p in started.calls && p in u.calls
      && if w.ctx.boundVia != Some(Signature) || w.ctx.agentId == None then
           started.calls[p] == Finished(Ran(w.ctx.agentId, w.ctx.boundVia, true))
         else
           && u.calls[p] == Finished(Ran(w.ctx.agentId, Some(Signature), !marked))
           && if marked && v.ctx.agentId == w.ctx.agentId then
                && u.ctx.agentId == None && u.ctx.agentName == None
                && Lasting(u.ctx) ==
                     if v.ctx.boundVia == Some(Signature) then Lasting(v.ctx) else (None, None, v.ctx.boundVia)
              else u.ctx == v.ctx
  {
    var started := Step(w, Start(p));
    if started.calls[p].Running? { AwaitKept(started, p, es); } else { SettledKept(started, p, es); }
  }

  /** The whole of it for a registration: until a step moves the connection, it is
      bound to the registered id and name, and every handler that starts with no
      signature in force starts as the registered agent. */
  lemma RegisteredUntilMoved(w: World, p: Pid, id: string, name: string, enrolled: bool, es: seq<Event>,
      after: seq<Event>, q: Pid)
    requires Starts(w, p) && w.calls[p].r.kind == Registering(id, name, true, enrolled) && Finish(p) !in es
    ensures var k, u := (Some(id), Some(name), Some(Register)), Step(Back(w, p, es), Finish(p));
      && (Stays(k, u, after) <==> NoneMoves(k, u, after))
      && (NoneMoves(k, u, after) && Starts(Run(u, after), q) && Run(u, after).ctx.boundVia != Some(Signature) ==>
          var started := Step(Run(u, after), Start(q));
          q in started.calls && Seen(started.calls[q]) == Some((Some(id), Some(Register))))
  {
    var k, u := (Some(id), Some(name), Some(Register)), Step(Back(w, p, es), Finish(p));
    RegisterBinds(w, p, id, name, true, enrolled, es);
    StaysIff(k, u, after);
    if NoneMoves(k, u, after) && Starts(Run(u, after), q) && Run(u, after).ctx.boundVia != Some(Signature) {
      MetAsBound(k, u, after, q);
    }
  }
}
