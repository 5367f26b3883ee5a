/** Pending approvals: what `queueApprovalRequired`, `decideApproval`,
    `expireStaleApprovals` and `tryConsumeApproval` do to the table, and what
    that means for the approval-gated calls of manual mode. Each database
    statement (for queue and decide: its check and write together) is one step;
    times are milliseconds. */
module Approvals {
  import opened Options

  const PENDING_TTL_MS := 30 * 60 * 1000
  const APPROVAL_CONSUME_TTL_MS := 5 * 60 * 1000
  const MAX_PENDING_PER_AGENT := 10

  type Id = string

  datatype Status = Pending | Approved | Denied | Consumed | Expired

  /** What a call is bound to: its agent, method and params hash. */
  datatype Call = Call(agentId: string, name: string, paramsHash: string)

  datatype Row = Row(call: Call, status: Status, expiresAt: int, decidedBy: Option<string>, decidedAt: Option<int>)

  type Rows = map<Id, Row>

  // ----- the statements -----

  predicate Stale(row: Row, now: int) {
    (row.status == Pending || row.status == Approved) && row.expiresAt <= now
  }

  function ExpireStale(rows: Rows, now: int): Rows {
    map id | id in rows :: if Stale(rows[id], now) then rows[id].(status := Expired) else rows[id]
  }

  predicate Usable(row: Row, call: Call, now: int) {
    row.call == call && row.status == Approved && row.expiresAt > now
  }

  function DecidedAt(row: Row): int {
    match row.decidedAt case None => 0 case Some(t) => t
  }

  /** `ORDER BY decided_at DESC NULLS LAST LIMIT 1` among the usable rows. */
  predicate Latest(rows: Rows, call: Call, now: int, id: Id) {
    && id in rows && Usable(rows[id], call, now)
    && forall j :: j in rows && Usable(rows[j], call, now) && rows[j].decidedAt.Some? ==>
         rows[id].decidedAt.Some? && DecidedAt(rows[j]) <= DecidedAt(rows[id])
  }

  predicate PendingLive(row: Row, agentId: string, now: int) {
    row.call.agentId == agentId && row.status == Pending && row.expiresAt > now
  }

  function PendingIds(rows: Rows, agentId: string, now: int): set<Id> {
    set id | id in rows && PendingLive(rows[id], agentId, now)
  }

  function Fresh(call: Call, now: int): Row {
    Row(call, Pending, now + PENDING_TTL_MS, None, None)
  }

  predicate Queues(rows: Rows, now: int, id: Id, call: Call) {
    |PendingIds(rows, call.agentId, now)| < MAX_PENDING_PER_AGENT && id !in rows
  }

  predicate Decides(rows: Rows, id: Id, decider: string) {
    id in rows && rows[id].status == Pending && decider != rows[id].call.agentId
  }

  function Decided(row: Row, now: int, approve: bool, decider: string): Row {
    if approve
    then row.(status := Approved, decidedBy := Some(decider), decidedAt := Some(now),
              expiresAt := now + APPROVAL_CONSUME_TTL_MS)
    else row.(status := Denied, decidedBy := Some(decider), decidedAt := Some(now))
  }

  // ----- the table the daemon keeps -----

  datatype Gate = Admitted(id: Id) | ApprovalRequired(id: Id) | FloodCap | InsertFailed

  lemma {:induction false} LatestExists(rows: Rows, call: Call, now: int, ids: set<Id>) returns (best: Id)
    requires ids != {} && forall id :: id in ids ==> id in rows && Usable(rows[id], call, now)
    ensures best in ids
    ensures forall j :: j in ids && rows[j].decidedAt.Some? ==>
      rows[best].decidedAt.Some? && DecidedAt(rows[j]) <= DecidedAt(rows[best])
  {
    var id :| id in ids;
    best := id;
    if ids != {id} {
      var other := LatestExists(rows, call, now, ids - {id});
      if rows[id].decidedAt == None || (rows[other].decidedAt.Some? && DecidedAt(rows[id]) <= DecidedAt(rows[other])) {
        best := other;
      }
    }
  }

  class ApprovalTable {
    var rows: Rows

    constructor ()
      ensures rows == map[]
    {
      rows := map[];
    }

    method ExpireStaleApprovals(now: int)
      modifies this
      ensures rows == ExpireStale(old(rows), now)
    {
      rows := ExpireStale(rows, now);
    }

    /** The consuming UPDATE with its sub-select. */
    method ConsumeLatest(now: int, call: Call) returns (id: Option<Id>)
      modifies this
      ensures match id
        case Some(i) => Latest(old(rows), call, now, i) && rows == old(rows)[i := old(rows)[i].(status := Consumed)]
        case None => rows == old(rows) && forall i :: i in rows ==> !Usable(rows[i], call, now)
    {
      var usable := set i | i in rows && Usable(rows[i], call, now);
      if usable == {} {
        assert forall i :: i in rows && Usable(rows[i], call, now) ==> i in usable;
        return None;
      }
      ghost var best := LatestExists(rows, call, now, usable);
      assert Latest(rows, call, now, best);
      var i :| i in usable && Latest(rows, call, now, i);
      rows := rows[i := rows[i].(status := Consumed)];
      id := Some(i);
    }

    method QueueApprovalRequired(now: int, id: Id, call: Call) returns (result: Gate)
      modifies this
      ensures Queues(old(rows), now, id, call) ==>
        result == ApprovalRequired(id) && rows == old(rows)[id := Fresh(call, now)]
      ensures !Queues(old(rows), now, id, call) ==> result in {FloodCap, InsertFailed} && rows == old(rows)
    {
      if |PendingIds(rows, call.agentId, now)| >= MAX_PENDING_PER_AGENT { return FloodCap; }
      if id in rows { return InsertFailed; }
      rows := rows[id := Fresh(call, now)];
      result := ApprovalRequired(id);
    }

    method DecideApproval(now: int, id: Id, approve: bool, decider: string) returns (ok: bool)
      modifies this
      ensures ok == Decides(old(rows), id, decider)
      ensures rows == if ok then old(rows)[id := Decided(old(rows)[id], now, approve, decider)] else old(rows)
    {
      if id !in rows || rows[id].status != Pending || decider == rows[id].call.agentId { return false; }
      rows := rows[id := Decided(rows[id], now, approve, decider)];
      ok := true;
    }

    /** The manual gate: expire, consume, otherwise queue. The clock may move
        between its statements. */
    method EnforceManual(expireAt: int, consumeAt: int, queueAt: int, id: Id, call: Call) returns (result: Gate)
      modifies this
      ensures var live := ExpireStale(old(rows), expireAt); match result
        case Admitted(i) => Latest(live, call, consumeAt, i) && rows == live[i := live[i].(status := Consumed)]
        case ApprovalRequired(i) => i == id && id !in live && rows == live[id := Fresh(call, queueAt)]
        case _ => rows == live
      ensures !result.Admitted? ==>
        forall i :: i in old(rows) && Usable(old(rows)[i], call, consumeAt) ==> Stale(old(rows)[i], expireAt)
    {
      ExpireStaleApprovals(expireAt);
      ghost var live := rows;
      var consumed := ConsumeLatest(consumeAt, call);
      if consumed.Some? { return Admitted(consumed.value); }
      assert forall i :: i in old(rows) && !Stale(old(rows)[i], expireAt) ==> live[i] == old(rows)[i];
      result := QueueApprovalRequired(queueAt, id, call);
    }
  }

  // ----- runs -----

  /** `waiting` holds the calls before the shutdown gate by the rows they consumed;
      `ran` the rows of the calls whose handler started. */
  datatype State = State(now: int, rows: Rows, waiting: map<Id, Call>, ran: set<Id>)

  datatype Event =
    | Tick(to: int)
    | Expire
    | Consume(call: Call, choice: Id)
    | Queue(id: Id, call: Call)
    | Decide(id: Id, approve: bool, decider: string)
    | Start(id: Id, closing: bool)
    | Restart

  /** The permission gate lets the call through. */
  predicate Admits(s: State, e: Event) {
    e.Consume? && Latest(s.rows, e.call, s.now, e.choice)
  }

  /** The call passes the shutdown gate too, and its handler starts. */
  predicate Runs(s: State, e: Event) {
    e.Start? && e.id in s.waiting && !e.closing
  }

  predicate Approves(s: State, e: Event) {
    e.Decide? && e.approve && Decides(s.rows, e.id, e.decider)
  }

  function Step(s: State, e: Event): State {
    match e
    case Tick(to) => if to >= s.now then s.(now := to) else s
    case Expire => s.(rows := ExpireStale(s.rows, s.now))
    case Consume(call, id) =>
      if Admits(s, e) then
        s.(rows := s.rows[id := s.rows[id].(status := Consumed)], waiting := s.waiting[id := call])
      else s
    case Queue(id, call) => if Queues(s.rows, s.now, id, call) then s.(rows := s.rows[id := Fresh(call, s.now)]) else s
    case Decide(id, approve, decider) =>
      if Decides(s.rows, id, decider) then s.(rows := s.rows[id := Decided(s.rows[id], s.now, approve, decider)]) else s
    case Start(id, closing) =>
      if Runs(s, e) then s.(waiting := s.waiting - {id}, ran := s.ran + {id}) else s.(waiting := s.waiting - {id})
    case Restart => s.(waiting := map[])
  }

  function Run(s: State, es: seq<Event>): State
    decreases es
  {
    if es == [] then s else Run(Step(s, es[0]), es[1..])
  }

  function Admissions(s: State, es: seq<Event>): nat
    decreases es
  {
    if es == [] then 0 else (if Admits(s, es[0]) then 1 else 0) + Admissions(Step(s, es[0]), es[1..])
  }

  function HandlerRuns(s: State, es: seq<Event>): nat
    decreases es
  {
    if es == [] then 0 else (if Runs(s, es[0]) then 1 else 0) + HandlerRuns(Step(s, es[0]), es[1..])
  }

  function Approvings(s: State, es: seq<Event>): nat
    decreases es
  {
    if es == [] then 0 else (if Approves(s, es[0]) then 1 else 0) + Approvings(Step(s, es[0]), es[1..])
  }

  predicate Final(st: Status) { st == Denied || st == Consumed || st == Expired }

  /** What an approved or consumed row says about its approval. */
  ghost predicate Sound(row: Row, now: int) {
    && (row.status == Approved || row.status == Consumed ==>
        && row.decidedBy.Some? && row.decidedBy.value != row.call.agentId
        && row.decidedAt.Some? && row.decidedAt.value <= now
        && row.expiresAt == row.decidedAt.value + APPROVAL_CONSUME_TTL_MS)
    && (row.status == Pending ==> row.decidedBy == None)
  }

  ghost predicate Invariant(s: State) {
    forall id :: id in s.rows ==> Sound(s.rows[id], s.now)
  }

  lemma StepInvariant(s: State, e: Event)
    requires Invariant(s)
    ensures Invariant(Step(s, e))
  {
  }

  /** A row moves only along pending to approved, denied or expired, and approved
      to consumed or expired; it never disappears and its call never changes. */
  lemma StepTransitions(s: State, e: Event, id: Id)
    requires id in s.rows
    ensures var r, r' := s.rows[id], Step(s, e).rows[id];
      && r'.call == r.call
      && (r' == r || (r.status, r'.status) in
           {(Pending, Approved), (Pending, Denied), (Pending, Expired), (Approved, Consumed), (Approved, Expired)})
  {
  }

  /** Consumed, denied and expired rows never change again. */
  lemma {:induction false} FinalForever(s: State, es: seq<Event>, id: Id)
    requires id in s.rows && Final(s.rows[id].status)
    ensures id in Run(s, es).rows && Run(s, es).rows[id] == s.rows[id]
    decreases es
  {
    if es != [] {
      StepTransitions(s, es[0], id);
      FinalForever(Step(s, es[0]), es[1..], id);
    }
  }

  lemma {:induction false} RunInvariant(s: State, es: seq<Event>)
    requires Invariant(s)
    ensures Invariant(Run(s, es)) && s.now <= Run(s, es).now
    decreases es
  {
    if es != [] {
      StepInvariant(s, es[0]);
      RunInvariant(Step(s, es[0]), es[1..]);
    }
  }

  /** After any run, a call that is admitted consumes a row of its own agent,
      method and params hash that another agent approved within the window. */
  lemma AdmittedByApproval(s: State, es: seq<Event>, e: Event)
    requires Invariant(s) && Admits(Run(s, es), e)
    ensures var r := Run(s, es).rows[e.choice];
      && r.call == e.call && r.decidedBy.Some? && r.decidedBy.value != e.call.agentId
      && r.decidedAt.Some? && r.decidedAt.value <= Run(s, es).now < r.decidedAt.value + APPROVAL_CONSUME_TTL_MS
    ensures Step(Run(s, es), e).rows[e.choice].status == Consumed
  {
    RunInvariant(s, es);
  }

  predicate WasApproved(s: State, id: Id) {
    id in s.rows && s.rows[id].status in {Approved, Consumed}
  }

  /** A row comes to be approved by a decide step only, and keeps its decision. */
  lemma StepDecision(s: State, e: Event, id: Id)
    requires Invariant(s) && WasApproved(Step(s, e), id)
    ensures var r := Step(s, e).rows[id];
      if Approves(s, e) && e.id == id then r.decidedBy == Some(e.decider) && r.decidedAt == Some(s.now)
      else WasApproved(s, id) && r.decidedBy == s.rows[id].decidedBy && r.decidedAt == s.rows[id].decidedAt
  {
  }

  /** Its approval is a decision made in the run, at the time the row says. */
  lemma {:induction false} ApprovalWasDecided(s: State, es: seq<Event>, id: Id) returns (k: nat)
    requires Invariant(s) && id !in s.rows && WasApproved(Run(s, es), id)
    ensures k < |es| && es[k].Decide? && es[k].id == id && Approves(Run(s, es[..k]), es[k])
    ensures Some(es[k].decider) == Run(s, es).rows[id].decidedBy
    ensures Some(Run(s, es[..k]).now) == Run(s, es).rows[id].decidedAt
  {
    var last, t := es[|es| - 1], es[..|es| - 1];
    hide Step;
    RunSnoc(s, t, last);
    RunInvariant(s, t);
    assert es == t + [last];
    StepDecision(Run(s, t), last, id);
    if Approves(Run(s, t), last) && last.id == id {
      k := |t|;
    } else {
      k := ApprovalWasDecided(s, t, id);
      assert es[..k] == t[..k];
    }
  }

  lemma {:induction false} RunSnoc(s: State, es: seq<Event>, e: Event)
    ensures Run(s, es + [e]) == Step(Run(s, es), e)
    decreases es
  {
    if es != [] {
      assert (es + [e])[1..] == es[1..] + [e];
      RunSnoc(Step(s, es[0]), es[1..], e);
    } else {
      assert (es + [e])[1..] == [];
    }
  }

  // ----- what each event does to a row -----

  /** A queued row asks for exactly its call, for thirty minutes, undecided; it is
      queued below ten live pending rows of the agent, and otherwise nothing is. */
  lemma QueueStores(s: State, id: Id, call: Call)
    ensures var live := set i | i in s.rows && s.rows[i].call.agentId == call.agentId
        && s.rows[i].status == Pending && s.rows[i].expiresAt > s.now;
      Step(s, Queue(id, call)) ==
        if id !in s.rows && |live| < 10
        then s.(rows := s.rows[id := Row(call, Pending, s.now + 1800000, None, None)])
        else s
  {
    assert PendingIds(s.rows, call.agentId, s.now) == set i | i in s.rows && s.rows[i].call.agentId == call.agentId
        && s.rows[i].status == Pending && s.rows[i].expiresAt > s.now;
  }

  /** An expiry takes every pending or approved row whose time is over, and no other. */
  lemma ExpireTakes(s: State, id: Id)
    requires id in s.rows
    ensures var r, t := s.rows[id], Step(s, Expire);
      && t.rows.Keys == s.rows.Keys
      && t.rows[id] == if r.status in {Pending, Approved} && r.expiresAt <= s.now then r.(status := Expired) else r
  {
  }

  predicate Matches(r: Row, call: Call, now: int) {
    r.call == call && r.status == Approved && r.expiresAt > now
  }

  /** A call is let through by the row of it that was decided last among those
      approved and within their time, which is consumed and otherwise as it was. */
  lemma ConsumesLatest(s: State, call: Call, id: Id)
    requires Invariant(s) && Admits(s, Consume(call, id))
    ensures id in s.rows && Matches(s.rows[id], call, s.now) && s.rows[id].decidedAt.Some?
    ensures forall j :: j in s.rows && Matches(s.rows[j], call, s.now) ==>
      s.rows[j].decidedAt.Some? && s.rows[j].decidedAt.value <= s.rows[id].decidedAt.value
    ensures Step(s, Consume(call, id)).rows == s.rows[id := s.rows[id].(status := Consumed)]
  {
    assert Sound(s.rows[id], s.now);
    forall j | j in s.rows && Matches(s.rows[j], call, s.now)
      ensures s.rows[j].decidedAt.Some? && s.rows[j].decidedAt.value <= s.rows[id].decidedAt.value
    {
      assert Sound(s.rows[j], s.now) && Usable(s.rows[j], call, s.now);
    }
  }

  /** There is such a row exactly when the call can be let through. */
  lemma AdmittedIff(s: State, call: Call)
    ensures (exists id :: Admits(s, Consume(call, id))) <==>
      exists id :: id in s.rows && Matches(s.rows[id], call, s.now)
  {
    var ids := set id | id in s.rows && Matches(s.rows[id], call, s.now);
    if id :| id in s.rows && Matches(s.rows[id], call, s.now) {
      assert id in ids;
      var best := LatestExists(s.rows, call, s.now, ids);
      assert forall j :: j in s.rows && Usable(s.rows[j], call, s.now) ==> j in ids;
      assert Latest(s.rows, call, s.now, best);
      assert Admits(s, Consume(call, best));
    }
    forall id | Admits(s, Consume(call, id)) ensures id in s.rows && Matches(s.rows[id], call, s.now) {
    }
  }

  /** A decision is made exactly on a pending row and by another agent; an approval
      lasts five minutes. */
  lemma DecideStores(s: State, id: Id, approve: bool, decider: string)
    ensures Step(s, Decide(id, approve, decider)) ==
      if id !in s.rows || s.rows[id].status != Pending || decider == s.rows[id].call.agentId then s
      else
        var r := s.rows[id];
        s.(rows := s.rows[id :=
          if approve then Row(r.call, Approved, s.now + 300000, Some(decider), Some(s.now))
          else Row(r.call, Denied, r.expiresAt, Some(decider), Some(s.now))])
  {
  }

  /** The calls before the shutdown gate and those whose handler started: a call let
      through waits by its row, a start ends the wait and runs it unless the daemon
      is closing, and a restart forgets all that wait. */
  lemma WaitingExactly(s: State, e: Event)
    ensures var t := Step(s, e);
      && t.waiting == (match e
           case Consume(call, id) => if Admits(s, e) then s.waiting[id := call] else s.waiting
           case Start(id, _) => s.waiting - {id}
           case Restart => map[]
           case _ => s.waiting)
      && t.ran == (match e
           case Start(id, closing) => if id in s.waiting && !closing then s.ran + {id} else s.ran
           case _ => s.ran)
  {
  }

  // ----- denials -----

  /** Step number `k` of the run denies `id`: it is pending then, and the decider is
      not its agent. */
  predicate DeniesAt(s: State, es: seq<Event>, k: nat, id: Id)
    requires k < |es|
  {
    && es[k].Decide? && es[k].id == id && !es[k].approve
    && var was := Run(s, es[..k]).rows;
       id in was && was[id].status == Pending && es[k].decider != was[id].call.agentId
  }

  /** A denied row is denied for good, by the decider and at the time of the step;
      no later event lets a call through by it, approves it or starts a handler. */
  lemma DeniedForever(s: State, id: Id, decider: string, es: seq<Event>, e: Event)
    requires id in s.rows && s.rows[id].status == Pending && decider != s.rows[id].call.agentId
    ensures var t := Run(Step(s, Decide(id, false, decider)), es);
      && id in t.rows && t.rows[id].status == Denied && t.rows[id].call == s.rows[id].call
      && t.rows[id].decidedBy == Some(decider) && t.rows[id].decidedAt == Some(s.now)
      && !(Admits(t, e) && e.choice == id) && !(Approves(t, e) && e.id == id)
      && (OwnRows(s) ==> !(Runs(t, e) && e.id == id))
  {
    var denied := Step(s, Decide(id, false, decider));
    FinalForever(denied, es, id);
    if OwnRows(s) {
      StepOwnRows(s, Decide(id, false, decider));
      RunOwnRows(denied, es);
    }
  }

  /** A row that began pending or absent is denied at the end of a run exactly when
      some step of the run denied it. */
  lemma {:induction false} DeniedIff(s: State, es: seq<Event>, id: Id)
    requires id in s.rows ==> s.rows[id].status != Denied
    ensures (id in Run(s, es).rows && Run(s, es).rows[id].status == Denied) <==>
      exists k: nat :: k < |es| && DeniesAt(s, es, k, id)
  {
    hide Step;
    if es != [] {
      var last, t := es[|es| - 1], es[..|es| - 1];
      assert es == t + [last];
      RunSnoc(s, t, last);
      DeniedIff(s, t, id);
      DeniesPrefix(s, t, last, id);
      DeniedBy(Run(s, t), last, id);
    }
  }

  lemma DeniesPrefix(s: State, t: seq<Event>, last: Event, id: Id)
    ensures forall k: nat :: k < |t| ==> (DeniesAt(s, t + [last], k, id) <==> DeniesAt(s, t, k, id))
    ensures DeniesAt(s, t + [last], |t|, id) <==>
      && last.Decide? && last.id == id && !last.approve
      && id in Run(s, t).rows && Run(s, t).rows[id].status == Pending
      && last.decider != Run(s, t).rows[id].call.agentId
  {
    forall k: nat | k < |t| ensures DeniesAt(s, t + [last], k, id) <==> DeniesAt(s, t, k, id) {
      assert (t + [last])[..k] == t[..k];
    }
    assert (t + [last])[..|t|] == t;
  }

  lemma DeniedBy(w: State, e: Event, id: Id)
    ensures (id in Step(w, e).rows && Step(w, e).rows[id].status == Denied) <==>
      || (id in w.rows && w.rows[id].status == Denied)
      || (&& e.Decide? && e.id == id && !e.approve
          && id in w.rows && w.rows[id].status == Pending && e.decider != w.rows[id].call.agentId)
  {
    if id in w.rows { StepTransitions(w, e, id); }
  }

  // ----- conservation -----

  ghost function ConsumedIds(rows: Rows): set<Id> {
    set id | id in rows && rows[id].status == Consumed
  }

  /** Rows that were ever approved: still approved, consumed, or expired since. */
  ghost function ApprovedIds(rows: Rows): set<Id> {
    set id | id in rows && rows[id].decidedBy.Some? && rows[id].status != Denied
  }

  lemma StepConsumed(s: State, e: Event)
    ensures ConsumedIds(Step(s, e).rows) == ConsumedIds(s.rows) + if Admits(s, e) then {e.choice} else {}
    ensures Admits(s, e) ==> e.choice !in ConsumedIds(s.rows)
  {
  }

  lemma StepApproved(s: State, e: Event)
    requires Invariant(s)
    ensures ApprovedIds(Step(s, e).rows) == ApprovedIds(s.rows) + if Approves(s, e) then {e.id} else {}
    ensures Approves(s, e) ==> e.id !in ApprovedIds(s.rows)
  {
  }

  lemma {:induction false} RunCounts(s: State, es: seq<Event>)
    requires Invariant(s)
    ensures |ConsumedIds(Run(s, es).rows)| == |ConsumedIds(s.rows)| + Admissions(s, es)
    ensures |ApprovedIds(Run(s, es).rows)| == |ApprovedIds(s.rows)| + Approvings(s, es)
    decreases es
  {
    if es != [] {
      StepConsumed(s, es[0]);
      StepApproved(s, es[0]);
      StepInvariant(s, es[0]);
      RunCounts(Step(s, es[0]), es[1..]);
    }
  }

  lemma Subset(a: set<Id>, b: set<Id>)
    requires a <= b
    ensures |a| <= |b|
  {
    assert b == a + (b - a);
  }

  /** A call past the permission gate has consumed a row of its own agent, method
      and params, and waits or has run, not both. */
  ghost predicate OwnRows(s: State) {
    && s.waiting.Keys <= ConsumedIds(s.rows) && s.ran <= ConsumedIds(s.rows) && s.waiting.Keys !! s.ran
    && forall id <- s.waiting :: id in s.rows && s.rows[id].call == s.waiting[id]
  }

  lemma StepOwnRows(s: State, e: Event)
    requires OwnRows(s)
    ensures OwnRows(Step(s, e))
    ensures Step(s, e).ran == s.ran + (if Runs(s, e) then {e.id} else {})
    ensures Runs(s, e) ==> e.id !in s.ran
  {
    StepConsumed(s, e);
    forall id | id in s.rows ensures id in Step(s, e).rows && Step(s, e).rows[id].call == s.rows[id].call {
      StepTransitions(s, e, id);
    }
    if e.Consume? && Admits(s, e) { assert e.choice !in ConsumedIds(s.rows); }
  }

  lemma {:induction false} RunOwnRows(s: State, es: seq<Event>)
    requires OwnRows(s)
    ensures OwnRows(Run(s, es))
    ensures |Run(s, es).ran| == |s.ran| + HandlerRuns(s, es)
    decreases es
  {
    if es != [] {
      StepOwnRows(s, es[0]);
      RunOwnRows(Step(s, es[0]), es[1..]);
    }
  }

  /** After any run, a handler that starts has a row of its own: of the same agent,
      method and params hash, consumed by its call, approved by another agent, and
      no other handler run's. */
  lemma HandlerHasItsRow(s: State, es: seq<Event>, e: Event)
    requires Invariant(s) && OwnRows(s) && Runs(Run(s, es), e)
    ensures var w := Run(s, es);
      && e.id in w.rows && w.rows[e.id].status == Consumed && e.id !in w.ran
      && w.rows[e.id].call == w.waiting[e.id]
      && w.rows[e.id].decidedBy.Some? && w.rows[e.id].decidedBy.value != w.waiting[e.id].agentId
    ensures e.id in Step(Run(s, es), e).ran
  {
    RunInvariant(s, es);
    RunOwnRows(s, es);
    assert e.id in ConsumedIds(Run(s, es).rows);
  }

  /** It is never a handler run's row again. */
  lemma {:induction false} RowRunsOnce(s: State, es: seq<Event>, e: Event)
    requires OwnRows(s) && e.Start? && e.id in s.ran
    ensures e.id in Run(s, es).ran && !Runs(Run(s, es), e)
    decreases es
  {
    if es != [] {
      StepOwnRows(s, es[0]);
      RowRunsOnce(Step(s, es[0]), es[1..], e);
    }
  }

  /** Over a run from an empty table, handler runs never outnumber the consumed rows,
      one for each call let through, nor these the approvals. */
  lemma RunsNeverOutnumberApprovals(now: int, es: seq<Event>)
    ensures var s := State(now, map[], map[], {});
      && HandlerRuns(s, es) == |Run(s, es).ran| <= |ConsumedIds(Run(s, es).rows)| == Admissions(s, es)
      && Admissions(s, es) <= |ApprovedIds(Run(s, es).rows)| == Approvings(s, es)
  {
    var s := State(now, map[], map[], {});
    RunInvariant(s, es);
    RunCounts(s, es);
    RunOwnRows(s, es);
    assert ConsumedIds(s.rows) == {} && ApprovedIds(s.rows) == {};
    Subset(Run(s, es).ran, ConsumedIds(Run(s, es).rows));
    Subset(ConsumedIds(Run(s, es).rows), ApprovedIds(Run(s, es).rows));
  }

  // ----- the flood cap -----

  ghost predicate Capped(s: State) {
    forall agentId :: |PendingIds(s.rows, agentId, s.now)| <= MAX_PENDING_PER_AGENT
  }

  /** The live pending rows of an agent grow only by a row the cap let in. */
  lemma StepPending(s: State, e: Event, agentId: string)
    ensures var was, live := PendingIds(s.rows, agentId, s.now), PendingIds(Step(s, e).rows, agentId, Step(s, e).now);
      if e.Queue? && Queues(s.rows, s.now, e.id, e.call) && e.call.agentId == agentId then live <= was + {e.id}
      else live <= was
  {
  }

  lemma StepCapped(s: State, e: Event)
    requires Capped(s)
    ensures Capped(Step(s, e))
  {
    forall agentId ensures |PendingIds(Step(s, e).rows, agentId, Step(s, e).now)| <= MAX_PENDING_PER_AGENT {
      var was, live := PendingIds(s.rows, agentId, s.now), PendingIds(Step(s, e).rows, agentId, Step(s, e).now);
      StepPending(s, e, agentId);
      if e.Queue? && Queues(s.rows, s.now, e.id, e.call) && e.call.agentId == agentId {
        Subset(live, was + {e.id});
      } else {
        Subset(live, was);
      }
    }
  }

  /** No agent ever has more than ten live pending rows. */
  lemma {:induction false} FloodCapHolds(s: State, es: seq<Event>)
    requires Capped(s)
    ensures Capped(Run(s, es))
    decreases es
  {
    if es != [] {
      StepCapped(s, es[0]);
      FloodCapHolds(Step(s, es[0]), es[1..]);
    }
  }
}
