/** `LoopGuardRegistry`: armed loops, their ticks, and the stop signal for loops
    that do not advance. */
module LoopGuard {
  import opened Options

  const DEFAULT_NOOP_LIMIT := 3
  const MIN_IDLE_INTERVAL_MS := 60_000

  /** A numeric argument: absent, NaN or infinite, or a number. */
  datatype Number = Missing | NotFinite | Num(n: real)

  function NonNegInt(x: Number): nat {
    if x.Num? && x.n >= 0.0 then x.n.Floor else 0
  }

  function NormalizeNoopLimit(x: Number): nat {
    if x.Num? && x.n > 0.0 then x.n.Floor else DEFAULT_NOOP_LIMIT
  }

  datatype Status = Armed | Paused | Stopped | NotAdvancing
  datatype Signal = NoSignal | SubMinute | Stalled(noOps: nat, limit: nat) | WasPaused | WasStopped | ReapedWithSession
  datatype Spend = Spend(tokensIn: nat, tokensOut: nat, costMicros: nat)

  function Plus(a: Spend, b: Spend): Spend {
    Spend(a.tokensIn + b.tokensIn, a.tokensOut + b.tokensOut, a.costMicros + b.costMicros)
  }

  const NOTHING := Spend(0, 0, 0)

  datatype Loop = Loop(
    agentId: string, sessionId: Option<string>, intervalMs: real, consecutiveNoOps: nat, noopLimit: nat, status: Status,
    subMinute: bool, tickCount: nat, createdAt: int, updatedAt: int, lastSignal: Signal, spend: Spend)

  type Loops = map<string, Loop>

  datatype Error = BadInterval | OwnedByAnother | UnknownLoop | LoopStopped | LoopPaused | AdvancedNotBoolean
  datatype Reply = Ok(loop: Loop) | Failed(why: Error) | Reaped(loops: map<string, Loop>)

  datatype Deltas = Deltas(tokensIn: Number, tokensOut: Number, costMicros: Number)

  function Amount(d: Deltas): Spend {
    Spend(NonNegInt(d.tokensIn), NonNegInt(d.tokensOut), NonNegInt(d.costMicros))
  }

  datatype Event =
    | Arm(id: string, agentId: string, intervalMs: Number, noopLimit: Number, sessionId: Option<string>, now: int)
    | Tick(id: string, advanced: Option<bool>, deltas: Deltas, now: int)
    | RecordSpend(id: string, deltas: Deltas, now: int)
    | Pause(id: string, now: int)
    | Resume(id: string, now: int)
    | Stop(id: string, now: int)
    | Reap(agentId: string, now: int)

  // ----- the functional account -----

  /** A live re-arm: cadence, session and limit only. */
  function Rearm(l: Loop, interval: real, limit: Number, session: Option<string>, now: int): Loop {
    var r := l.(intervalMs := interval, subMinute := interval < MIN_IDLE_INTERVAL_MS as real, updatedAt := now,
                sessionId := if session.Some? then session else l.sessionId,
                noopLimit := if limit != Missing then NormalizeNoopLimit(limit) else l.noopLimit);
    if r.status != Paused && r.consecutiveNoOps >= r.noopLimit
    then r.(status := NotAdvancing, lastSignal := Stalled(r.consecutiveNoOps, r.noopLimit)) else r
  }

  function NewLoop(agentId: string, interval: real, limit: Number, session: Option<string>, now: int): Loop {
    var subMinute := interval < MIN_IDLE_INTERVAL_MS as real;
    Loop(agentId, session, interval, 0, NormalizeNoopLimit(limit), Armed, subMinute, 0, now, now,
         if subMinute then SubMinute else NoSignal, NOTHING)
  }

  function Ticked(l: Loop, advanced: bool, d: Deltas, now: int): Loop {
    var t := l.(tickCount := l.tickCount + 1, updatedAt := now, spend := Plus(l.spend, Amount(d)));
    if advanced then t.(consecutiveNoOps := 0, status := Armed, lastSignal := NoSignal)
    else
      var n := t.consecutiveNoOps + 1;
      if n >= t.noopLimit then t.(consecutiveNoOps := n, status := NotAdvancing, lastSignal := Stalled(n, t.noopLimit))
      else t.(consecutiveNoOps := n, lastSignal := NoSignal)
  }

  predicate BelongsTo(l: Loop, agentId: string) {
    l.agentId == agentId || l.sessionId == Some(agentId)
  }

  /** The reply to an event; an error leaves the registry alone. */
  function Answer(ls: Loops, e: Event): Reply {
    match e
    case Arm(id, agentId, interval, limit, session, now) =>
      if !interval.Num? || interval.n <= 0.0 then Failed(BadInterval)
      else if id in ls && ls[id].agentId != agentId then Failed(OwnedByAnother)
      else if id in ls && ls[id].status != Stopped then Ok(Rearm(ls[id], interval.n, limit, session, now))
      else Ok(NewLoop(agentId, interval.n, limit, session, now))
    case Tick(id, advanced, d, now) =>
      if id !in ls then Failed(UnknownLoop)
      else if ls[id].status == Stopped then Failed(LoopStopped)
      else if ls[id].status == Paused then Failed(LoopPaused)
      else if advanced == None then Failed(AdvancedNotBoolean)
      else Ok(Ticked(ls[id], advanced.value, d, now))
    case RecordSpend(id, d, now) =>
      if id !in ls then Failed(UnknownLoop)
      else if ls[id].status == Stopped then Failed(LoopStopped)
      else Ok(ls[id].(spend := Plus(ls[id].spend, Amount(d)), updatedAt := now))
    case Pause(id, now) =>
      if id !in ls then Failed(UnknownLoop)
      else if ls[id].status == Stopped then Failed(LoopStopped)
      else Ok(ls[id].(status := Paused, updatedAt := now, lastSignal := WasPaused))
    case Resume(id, now) =>
      if id !in ls then Failed(UnknownLoop)
      else if ls[id].status == Stopped then Failed(LoopStopped)
      else Ok(ls[id].(status := Armed, updatedAt := now, lastSignal := NoSignal))
    case Stop(id, now) =>
      if id !in ls then Failed(UnknownLoop)
      else Ok(ls[id].(status := Stopped, updatedAt := now, lastSignal := WasStopped))
    case Reap(agentId, now) =>
      Reaped(map id | id in ls && BelongsTo(ls[id], agentId) ::
               ls[id].(status := Stopped, updatedAt := now, lastSignal := ReapedWithSession))
  }

  function Step(ls: Loops, e: Event): Loops {
    match Answer(ls, e)
    case Ok(l) => if e.Reap? then ls else ls[e.id := l]
    case Failed(_) => ls
    case Reaped(gone) => ls - gone.Keys
  }

  // ----- the registry -----

  class LoopGuardRegistry {
    var loops: Loops

    constructor ()
      ensures loops == map[]
    {
      loops := map[];
    }

    method ArmLoop(id: string, agentId: string, interval: Number, limit: Number, session: Option<string>, now: int)
      returns (reply: Reply)
      modifies this
      ensures var e := Arm(id, agentId, interval, limit, session, now);
        reply == Answer(old(loops), e) && loops == Step(old(loops), e)
    {
      if !interval.Num? || interval.n <= 0.0 { return Failed(BadInterval); }
      var subMinute := interval.n < MIN_IDLE_INTERVAL_MS as real;
      if id in loops && loops[id].agentId != agentId { return Failed(OwnedByAnother); }
      if id in loops && loops[id].status != Stopped {
        var existing := loops[id];
        existing := existing.(intervalMs := interval.n, subMinute := subMinute, updatedAt := now);
        if session.Some? { existing := existing.(sessionId := session); }
        if limit != Missing { existing := existing.(noopLimit := NormalizeNoopLimit(limit)); }
        if existing.status != Paused && existing.consecutiveNoOps >= existing.noopLimit {
          var signal := Stalled(existing.consecutiveNoOps, existing.noopLimit);
          existing := existing.(status := NotAdvancing, lastSignal := signal);
        }
        loops := loops[id := existing];
        return Ok(existing);
      }
      var state := Loop(agentId, session, interval.n, 0, NormalizeNoopLimit(limit), Armed, subMinute, 0, now, now,
                        if subMinute then SubMinute else NoSignal, NOTHING);
      loops := loops[id := state];
      reply := Ok(state);
    }

    method TickLoop(id: string, advanced: Option<bool>, d: Deltas, now: int) returns (reply: Reply)
      modifies this
      ensures var e := Tick(id, advanced, d, now); reply == Answer(old(loops), e) && loops == Step(old(loops), e)
    {
      if id !in loops { return Failed(UnknownLoop); }
      var s := loops[id];
      if s.status == Stopped { return Failed(LoopStopped); }
      if s.status == Paused { return Failed(LoopPaused); }
      if advanced == None { return Failed(AdvancedNotBoolean); }
      s := s.(tickCount := s.tickCount + 1, updatedAt := now, spend := Plus(s.spend, Amount(d)));
      if advanced.value {
        s := s.(consecutiveNoOps := 0, status := Armed, lastSignal := NoSignal);
      } else {
        s := s.(consecutiveNoOps := s.consecutiveNoOps + 1);
        if s.consecutiveNoOps >= s.noopLimit {
          s := s.(status := NotAdvancing, lastSignal := Stalled(s.consecutiveNoOps, s.noopLimit));
        } else {
          s := s.(lastSignal := NoSignal);
        }
      }
      loops := loops[id := s];
      reply := Ok(s);
    }

    method RecordLoopSpend(id: string, d: Deltas, now: int) returns (reply: Reply)
      modifies this
      ensures reply == Answer(old(loops), RecordSpend(id, d, now)) && loops == Step(old(loops), RecordSpend(id, d, now))
    {
      if id !in loops { return Failed(UnknownLoop); }
      if loops[id].status == Stopped { return Failed(LoopStopped); }
      var s := loops[id].(spend := Plus(loops[id].spend, Amount(d)), updatedAt := now);
      loops := loops[id := s];
      reply := Ok(s);
    }

    method PauseLoop(id: string, now: int) returns (reply: Reply)
      modifies this
      ensures reply == Answer(old(loops), Pause(id, now)) && loops == Step(old(loops), Pause(id, now))
    {
      if id !in loops { return Failed(UnknownLoop); }
      if loops[id].status == Stopped { return Failed(LoopStopped); }
      var s := loops[id].(status := Paused, updatedAt := now, lastSignal := WasPaused);
      loops := loops[id := s];
      reply := Ok(s);
    }

    method ResumeLoop(id: string, now: int) returns (reply: Reply)
      modifies this
      ensures reply == Answer(old(loops), Resume(id, now)) && loops == Step(old(loops), Resume(id, now))
    {
      if id !in loops { return Failed(UnknownLoop); }
      if loops[id].status == Stopped { return Failed(LoopStopped); }
      var s := loops[id].(status := Armed, updatedAt := now, lastSignal := NoSignal);
      loops := loops[id := s];
      reply := Ok(s);
    }

    method StopLoop(id: string, now: int) returns (reply: Reply)
      modifies this
      ensures reply == Answer(old(loops), Stop(id, now)) && loops == Step(old(loops), Stop(id, now))
    {
      if id !in loops { return Failed(UnknownLoop); }
      var s := loops[id].(status := Stopped, updatedAt := now, lastSignal := WasStopped);
      loops := loops[id := s];
      reply := Ok(s);
    }

    method ReapAgent(agentId: string, now: int) returns (reply: Reply)
      modifies this
      ensures reply == Answer(old(loops), Reap(agentId, now)) && loops == Step(old(loops), Reap(agentId, now))
    {
      var left, gone: Loops := loops.Keys, map[];
      while left != {}
        invariant left <= old(loops).Keys
        invariant gone == map id | id in old(loops) && id !in left && BelongsTo(old(loops)[id], agentId) ::
                    old(loops)[id].(status := Stopped, updatedAt := now, lastSignal := ReapedWithSession)
        invariant loops == old(loops) - gone.Keys
        decreases left
      {
        var id :| id in left;
        left := left - {id};
        var s := loops[id];
        if s.agentId != agentId && s.sessionId != Some(agentId) { continue; }
        gone := gone[id := s.(status := Stopped, updatedAt := now, lastSignal := ReapedWithSession)];
        loops := loops - {id};
      }
      reply := Reaped(gone);
    }
  }

  // ----- history -----

  /** What an accepted event means for the counters of its loop. */
  datatype Entry =
    | Began(id: string)
    | Counted(id: string, advanced: bool, spend: Spend)
    | Paid(id: string, spend: Spend)

  function Entries(ls: Loops, e: Event): seq<Entry> {
    if !Answer(ls, e).Ok? then []
    else match e
      case Arm(id, _, _, _, _, _) => if id in ls && ls[id].status != Stopped then [] else [Began(id)]
      case Tick(id, advanced, d, _) => if advanced.Some? then [Counted(id, advanced.value, Amount(d))] else []
      case RecordSpend(id, d, _) => [Paid(id, Amount(d))]
      case _ => []
  }

  function Run(es: seq<Event>): Loops {
    if es == [] then map[] else Step(Run(es[..|es| - 1]), es[|es| - 1])
  }

  /** The accepted arms, ticks and spends of a run, in order. */
  function History(es: seq<Event>): seq<Entry> {
    if es == [] then []
    else History(es[..|es| - 1]) + Entries(Run(es[..|es| - 1]), es[|es| - 1])
  }

  /** Ticks, trailing no-op ticks and spend of a loop since its last fresh arm. */
  function Ticks(h: seq<Entry>, id: string): nat {
    if h == [] || h[|h| - 1] == Began(id) then 0
    else
      var e := h[|h| - 1];
      Ticks(h[..|h| - 1], id) + if e.Counted? && e.id == id then 1 else 0
  }

  function Streak(h: seq<Entry>, id: string): nat {
    if h == [] || h[|h| - 1] == Began(id) then 0
    else
      var e := h[|h| - 1];
      if e.Counted? && e.id == id then (if e.advanced then 0 else Streak(h[..|h| - 1], id) + 1)
      else Streak(h[..|h| - 1], id)
  }

  function Spent(h: seq<Entry>, id: string): Spend {
    if h == [] || h[|h| - 1] == Began(id) then NOTHING
    else
      var e := h[|h| - 1];
      var before := Spent(h[..|h| - 1], id);
      if !e.Began? && e.id == id then Plus(before, e.spend) else before
  }

  ghost predicate Agrees(l: Loop, h: seq<Entry>, id: string) {
    l.tickCount == Ticks(h, id) && l.consecutiveNoOps == Streak(h, id) && l.spend == Spent(h, id)
  }

  lemma AppendCounts(h: seq<Entry>, x: Entry, id: string)
    ensures Ticks(h + [x], id) ==
      if x == Began(id) then 0 else if x.Counted? && x.id == id then Ticks(h, id) + 1 else Ticks(h, id)
    ensures Streak(h + [x], id) ==
      if x == Began(id) then 0
      else if x.Counted? && x.id == id then (if x.advanced then 0 else Streak(h, id) + 1)
      else Streak(h, id)
    ensures Spent(h + [x], id) ==
      if x == Began(id) then NOTHING else if !x.Began? && x.id == id then Plus(Spent(h, id), x.spend) else Spent(h, id)
  {
    assert (h + [x])[..|h|] == h;
  }

  /** One event keeps a loop's counters in agreement with the history it extends. */
  lemma StepAgrees(ls: Loops, h: seq<Entry>, e: Event, id: string)
    requires id in ls ==> Agrees(ls[id], h, id)
    requires id in Step(ls, e)
    ensures Agrees(Step(ls, e)[id], h + Entries(ls, e), id)
  {
    var x := Entries(ls, e);
    if x == [] {
      assert h + x == h;
      UncountedAgrees(ls, e, id);
    } else {
      AppendCounts(h, x[0], id);
      assert x == [x[0]];
    }
  }

  lemma UncountedAgrees(ls: Loops, e: Event, id: string)
    requires Entries(ls, e) == []
    requires id in Step(ls, e)
    ensures id in ls
    ensures var l, m := ls[id], Step(ls, e)[id];
      m.tickCount == l.tickCount && m.consecutiveNoOps == l.consecutiveNoOps && m.spend == l.spend
  {
  }

  /** In every run the counters of every loop are those of its history since its
      last fresh arm; re-arm, pause, resume and stop leave no trace in them. */
  lemma {:induction false} CountersAgree(es: seq<Event>)
    ensures forall id :: id in Run(es) ==> Agrees(Run(es)[id], History(es), id)
  {
    if es != [] {
      var init, e := es[..|es| - 1], es[|es| - 1];
      CountersAgree(init);
      forall id | id in Run(es) ensures Agrees(Run(es)[id], History(es), id) {
        StepAgrees(Run(init), History(init), e, id);
      }
    }
  }

  lemma TickStatus(l: Loop, advanced: bool, d: Deltas, now: int)
    ensures var t := Ticked(l, advanced, d, now);
      && t.tickCount == l.tickCount + 1
      && t.consecutiveNoOps == (if advanced then 0 else l.consecutiveNoOps + 1)
      && (advanced ==> t.status == Armed)
      && (!advanced ==> (t.status == NotAdvancing <==> t.consecutiveNoOps >= t.noopLimit || l.status == NotAdvancing))
  {
  }

  /** A no-op tick answers `not_advancing` exactly when the streak it leaves
      reaches the limit, or the loop had that status before (a re-arm may have
      raised the limit since); an advancing tick clears the streak. */
  lemma {:induction false} TickSignals(es: seq<Event>, e: Event)
    requires e.Tick? && Answer(Run(es), e).Ok?
    ensures var l, was := Answer(Run(es), e).loop, Run(es)[e.id];
      && l.tickCount == Ticks(History(es), e.id) + 1
      && (e.advanced == Some(true) ==> l.consecutiveNoOps == 0 && l.status == Armed)
      && (e.advanced == Some(false) ==>
           && l.consecutiveNoOps == Streak(History(es), e.id) + 1
           && (l.status == NotAdvancing <==> l.consecutiveNoOps >= l.noopLimit || was.status == NotAdvancing))
  {
    CountersAgree(es);
    var was := Run(es)[e.id];
    assert Agrees(was, History(es), e.id);
    TickStatus(was, e.advanced.value, e.deltas, e.now);
  }

  /** So a loop cannot dodge its limit between ticks: whatever is accepted other
      than an advancing tick, a fresh arm or a reap keeps its streak. */
  lemma {:induction false} StreakSurvives(es: seq<Event>, fs: seq<Event>, id: string)
    requires id in Run(es)
    requires forall k :: 0 <= k < |fs| ==> fs[k].Arm? || fs[k].Pause? || fs[k].Resume? || fs[k].RecordSpend?
    requires Run(es)[id].status != Stopped
    ensures id in Run(es + fs) && Run(es + fs)[id].status != Stopped
    ensures Run(es + fs)[id].consecutiveNoOps == Run(es)[id].consecutiveNoOps
    ensures Run(es + fs)[id].tickCount == Run(es)[id].tickCount
    decreases fs
  {
    if fs == [] {
      assert es + fs == es;
    } else {
      var init := fs[..|fs| - 1];
      StreakSurvives(es, init, id);
      assert (es + fs)[..|es + fs| - 1] == es + init;
    }
  }

  /** Reaped loops are gone: a later tick of one is an unknown-loop error until it
      is armed afresh. */
  lemma ReapedAreGone(es: seq<Event>, agentId: string, now: int, id: string, advanced: Option<bool>, d: Deltas)
    requires id in Run(es) && BelongsTo(Run(es)[id], agentId)
    ensures Answer(Run(es + [Reap(agentId, now)]), Tick(id, advanced, d, now)) == Failed(UnknownLoop)
  {
    assert (es + [Reap(agentId, now)])[..|es|] == es;
  }

  // ----- paused and stopped loops -----

  /** An event that takes a paused loop out of its pause: a resume, a stop, or the end
      of its owner or of the session it runs in. */
  predicate Unpauses(ls: Loops, e: Event, id: string)
    requires id in ls
  {
    || ((e.Resume? || e.Stop?) && e.id == id)
    || (e.Reap? && (ls[id].agentId == e.agentId || ls[id].sessionId == Some(e.agentId)))
  }

  /** One that takes a stopped loop out of its stop: an arm by its owner with a positive
      interval, or the end of its owner or session. */
  predicate Restarts(ls: Loops, e: Event, id: string)
    requires id in ls
  {
    || (e.Arm? && e.id == id && e.agentId == ls[id].agentId && e.intervalMs.Num? && e.intervalMs.n > 0.0)
    || (e.Reap? && (ls[id].agentId == e.agentId || ls[id].sessionId == Some(e.agentId)))
  }

  predicate Ends(ls: Loops, e: Event, id: string, status: Status)
    requires id in ls
  {
    if status == Paused then Unpauses(ls, e, id) else Restarts(ls, e, id)
  }

  function RunFrom(ls: Loops, es: seq<Event>): Loops
    decreases es
  {
    if es == [] then ls else RunFrom(Step(ls, es[0]), es[1..])
  }

  predicate NoneEnds(ls: Loops, es: seq<Event>, id: string, status: Status)
    decreases es
  {
    es == [] || (id in ls && !Ends(ls, es[0], id, status) && NoneEnds(Step(ls, es[0]), es[1..], id, status))
  }

  predicate Remains(ls: Loops, es: seq<Event>, id: string, status: Status)
    decreases es
  {
    id in ls && ls[id].status == status && (es == [] || Remains(Step(ls, es[0]), es[1..], id, status))
  }

  lemma StepRemains(ls: Loops, e: Event, id: string)
    requires id in ls && ls[id].status in {Paused, Stopped}
    ensures (id in Step(ls, e) && Step(ls, e)[id].status == ls[id].status) <==> !Ends(ls, e, id, ls[id].status)
  {
  }

  /** A paused loop stays paused, and a stopped one stopped, exactly until such an
      event; all that time its ticks are refused, and a stopped loop refuses to be
      paused, resumed or charged. */
  lemma {:induction false} RefusesUntil(ls: Loops, es: seq<Event>, id: string, status: Status, advanced: Option<bool>,
      d: Deltas, now: int)
    requires id in ls && ls[id].status == status && status in {Paused, Stopped}
    ensures Remains(ls, es, id, status) <==> NoneEnds(ls, es, id, status)
    ensures NoneEnds(ls, es, id, status) ==>
      var r := RunFrom(ls, es);
      && Answer(r, Tick(id, advanced, d, now)) == Failed(if status == Paused then LoopPaused else LoopStopped)
      && (status == Stopped ==>
          Answer(r, Pause(id, now)) == Answer(r, Resume(id, now)) == Answer(r, RecordSpend(id, d, now)) ==
          Failed(LoopStopped))
    decreases es
  {
    if es != [] {
      StepRemains(ls, es[0], id);
      if !Ends(ls, es[0], id, status) { RefusesUntil(Step(ls, es[0]), es[1..], id, status, advanced, d, now); }
    }
  }

  // ----- what the replies hold -----

  /** An arm needs a positive interval, and a loop of that id is its owner's. */
  lemma ArmAnswers(ls: Loops, id: string, agentId: string, interval: Number, limit: Number, session: Option<string>,
      now: int)
    ensures var r := Answer(ls, Arm(id, agentId, interval, limit, session, now));
      if !interval.Num? || interval.n <= 0.0 then r == Failed(BadInterval)
      else if id in ls && ls[id].agentId != agentId then r == Failed(OwnedByAnother)
      else
        var first := id !in ls || ls[id].status == Stopped;
        && r.Ok? && r.loop.agentId == agentId && r.loop.intervalMs == interval.n && r.loop.updatedAt == now
        && (r.loop.subMinute <==> interval.n < 60000.0)
        && r.loop.sessionId == (if first || session.Some? then session else ls[id].sessionId)
        && r.loop.noopLimit ==
             (if limit.Num? && limit.n > 0.0 then limit.n.Floor
              else if first || limit == NotFinite || limit.Num? then 3 else ls[id].noopLimit)
        && (first ==>
             && r.loop.status == Armed && r.loop.tickCount == 0 && r.loop.consecutiveNoOps == 0
             && r.loop.spend == Spend(0, 0, 0) && r.loop.createdAt == now
             && r.loop.lastSignal == if interval.n < 60000.0 then SubMinute else NoSignal)
        && (!first ==>
             var stalls := ls[id].status != Paused && ls[id].consecutiveNoOps >= r.loop.noopLimit;
             && r.loop.createdAt == ls[id].createdAt
             && r.loop.status == (if stalls then NotAdvancing else ls[id].status)
             && r.loop.lastSignal ==
                  if stalls then Stalled(ls[id].consecutiveNoOps, r.loop.noopLimit) else ls[id].lastSignal)
  {
  }

  /** A tick of a live loop: refused while stopped or paused, or without an answer
      whether it advanced; it signals a stall with the streak and the limit. */
  lemma TickAnswers(ls: Loops, id: string, advanced: Option<bool>, d: Deltas, now: int)
    ensures var r := Answer(ls, Tick(id, advanced, d, now));
      if id !in ls then r == Failed(UnknownLoop)
      else if ls[id].status == Stopped then r == Failed(LoopStopped)
      else if ls[id].status == Paused then r == Failed(LoopPaused)
      else if advanced == None then r == Failed(AdvancedNotBoolean)
      else
        var n := if advanced.value then 0 else ls[id].consecutiveNoOps + 1;
        var stalls := !advanced.value && n >= ls[id].noopLimit;
        && r.Ok? && r.loop.consecutiveNoOps == n && r.loop.tickCount == ls[id].tickCount + 1
        && r.loop.status == (if advanced.value then Armed else if stalls then NotAdvancing else ls[id].status)
        && r.loop.lastSignal == (if stalls then Stalled(n, ls[id].noopLimit) else NoSignal)
        && r.loop.noopLimit == ls[id].noopLimit && r.loop.updatedAt == now
  {
  }

  /** Spend is added amount by amount, to a loop that is not stopped; a tick adds what it
      reports too. */
  lemma SpendAnswers(ls: Loops, id: string, d: Deltas, advanced: Option<bool>, now: int)
    ensures var r, t := Answer(ls, RecordSpend(id, d, now)), Answer(ls, Tick(id, advanced, d, now));
      if id !in ls then r == Failed(UnknownLoop)
      else
        var was, a := ls[id].spend, Amount(d);
        var sum := Spend(was.tokensIn + a.tokensIn, was.tokensOut + a.tokensOut, was.costMicros + a.costMicros);
        && r == (if ls[id].status == Stopped then Failed(LoopStopped) else Ok(ls[id].(spend := sum, updatedAt := now)))
        && (t.Ok? ==> t.loop.spend == sum)
  {
  }

  /** Amounts are whole and not negative: missing, infinite and negative ones are
      zero, others are rounded down. */
  lemma AmountsCount(d: Deltas)
    ensures var a := Amount(d);
      && a.tokensIn == (if d.tokensIn.Num? && d.tokensIn.n >= 0.0 then d.tokensIn.n.Floor else 0)
      && a.tokensOut == (if d.tokensOut.Num? && d.tokensOut.n >= 0.0 then d.tokensOut.n.Floor else 0)
      && a.costMicros == (if d.costMicros.Num? && d.costMicros.n >= 0.0 then d.costMicros.n.Floor else 0)
  {
  }

  /** Pause, resume and stop set the status of a loop and its signal, and nothing else
      but the time. */
  lemma StatusAnswers(ls: Loops, id: string, now: int)
    requires id in ls
    ensures ls[id].status != Stopped ==>
      && Answer(ls, Pause(id, now)) == Ok(ls[id].(status := Paused, lastSignal := WasPaused, updatedAt := now))
      && Answer(ls, Resume(id, now)) == Ok(ls[id].(status := Armed, lastSignal := NoSignal, updatedAt := now))
    ensures Answer(ls, Stop(id, now)) == Ok(ls[id].(status := Stopped, lastSignal := WasStopped, updatedAt := now))
  {
  }

  /** A reap takes exactly the loops of the agent, as owner or session, and returns
      them stopped. */
  lemma ReapTakes(ls: Loops, agentId: string, now: int, id: string)
    requires id in ls
    ensures var r, t, l := Answer(ls, Reap(agentId, now)), Step(ls, Reap(agentId, now)), ls[id];
      && r.Reaped? && r.loops.Keys <= ls.Keys
      && if l.agentId == agentId || l.sessionId == Some(agentId) then
           && id !in t && id in r.loops
           && r.loops[id] == l.(status := Stopped, lastSignal := ReapedWithSession, updatedAt := now)
         else id in t && t[id] == l && id !in r.loops
  {
  }
}
