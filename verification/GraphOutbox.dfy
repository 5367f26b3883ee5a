/** The outbox of the local graph and its push to the hub: each pending row is
    applied at the hub and then marked, in order. Pushes do not overlap; rows may
    be recorded at any moment, in the middle of a push too. */
module GraphOutbox {
  import opened Options

  type Op = string

  /** A row of kg_outbox; its index is its seq. */
  datatype Row = Row(op: Op, pushed: bool)

  /** An operation the hub has taken, with the row it came from. */
  datatype Applied = Applied(row: nat, op: Op)

  /** The tables and what the hub has applied so far. */
  datatype State = State(rows: seq<Row>, hub: seq<Applied>)

  /** What happens to one row of a push: the hub refuses it; it takes it but the
      error, a failed mark or a crash keeps the row unmarked; or all goes well. */
  datatype Outcome = Refused | AppliedUnmarked | Marked

  datatype PushResult = NoHub(pending: nat) | Pushed(pushed: nat, pending: nat, failed: bool)

  /** The unpushed rows in order of seq. */
  function Pending(rows: seq<Row>): (p: seq<nat>)
    ensures forall k :: 0 <= k < |p| ==> p[k] < |rows|
  {
    if rows == [] then []
    else
      var last := |rows| - 1;
      Pending(rows[..last]) + if rows[last].pushed then [] else [last]
  }

  function PushRow(s: State, i: nat, o: Outcome): State
    requires i < |s.rows|
  {
    match o
    case Refused => s
    case AppliedUnmarked => s.(hub := s.hub + [Applied(i, s.rows[i].op)])
    case Marked => State(s.rows[i := s.rows[i].(pushed := true)], s.hub + [Applied(i, s.rows[i].op)])
  }

  /** The loop over the rows read, from the `k`th on: it stops at the first row that
      is not marked, and where the outcomes end (a crash between two rows). */
  function PushFrom(s: State, pending: seq<nat>, outcomes: seq<Outcome>, k: nat): State
    requires forall j :: 0 <= j < |pending| ==> pending[j] < |s.rows|
    decreases |pending| - k
  {
    if k >= |pending| || k >= |outcomes| then s
    else
      var s' := PushRow(s, pending[k], outcomes[k]);
      if outcomes[k] == Marked then PushFrom(s', pending, outcomes, k + 1) else s'
  }

  /** How many of `n` rows, from the `k`th on, a push marks before it stops. */
  function Marks(outcomes: seq<Outcome>, n: nat, k: nat): (m: nat)
    ensures k <= n ==> k + m <= n
    decreases n - k
  {
    if k >= n || k >= |outcomes| || outcomes[k] != Marked then 0 else 1 + Marks(outcomes, n, k + 1)
  }

  function Push(s: State, outcomes: seq<Outcome>): State {
    PushFrom(s, Pending(s.rows), outcomes, 0)
  }

  function Append(s: State, op: Op): State {
    s.(rows := s.rows + [Row(op, false)])
  }

  class Outbox {
    var rows: seq<Row>
    ghost var hub: seq<Applied>

    ghost function Value(): State
      reads this
    {
      State(rows, hub)
    }

    constructor ()
      ensures Value() == State([], [])
    {
      rows, hub := [], [];
    }

    method Record(op: Op)
      modifies this
      ensures Value() == Append(old(Value()), op)
    {
      rows := rows + [Row(op, false)];
    }

    /** Apply at the hub, then mark. */
    method PushOne(i: nat, outcome: Outcome)
      requires i < |rows|
      modifies this
      ensures Value() == PushRow(old(Value()), i, outcome)
    {
      if outcome == Refused { return; }
      hub := hub + [Applied(i, rows[i].op)];
      if outcome == AppliedUnmarked { return; }
      rows := rows[i := rows[i].(pushed := true)];
    }

    /** `outcomes` has one entry per pending row unless the daemon crashes. */
    method GraphOutboxPush(hubConfigured: bool, outcomes: seq<Outcome>) returns (result: PushResult)
      modifies this
      ensures Value() == if hubConfigured then Push(old(Value()), outcomes) else old(Value())
      ensures var n := |Pending(old(rows))|; var m := Marks(outcomes, n, 0);
        result == if hubConfigured then Pushed(m, n - m, m < n) else NoHub(n)
    {
      var pendingRows := Pending(rows);
      if !hubConfigured { return NoHub(|pendingRows|); }
      var pushed := 0;
      ghost var goal, total := Push(Value(), outcomes), Marks(outcomes, |pendingRows|, 0);
      for k := 0 to |pendingRows|
        invariant pushed == k <= |outcomes| && forall j :: 0 <= j < |pendingRows| ==> pendingRows[j] < |rows|
        invariant total == k + Marks(outcomes, |pendingRows|, k)
        invariant goal == PushFrom(Value(), pendingRows, outcomes, k)
      {
        if k == |outcomes| { return Pushed(pushed, |pendingRows| - pushed, true); }
        var i := pendingRows[k];
        PushOne(i, outcomes[k]);
        if outcomes[k] != Marked { return Pushed(pushed, |pendingRows| - pushed, true); }
        pushed := pushed + 1;
      }
      result := Pushed(pushed, 0, false);
    }
  }

  // ----- runs -----

  /** The state and the rows that a push in progress has read and not reached yet. */
  datatype World = World(s: State, reading: Option<seq<nat>>)

  datatype Event = Recorded(op: Op) | BeginPush | Turn(outcome: Outcome) | Crash

  function Step(w: World, e: Event): World {
    match e
    case Recorded(op) => w.(s := Append(w.s, op))
    case BeginPush => if w.reading == None then w.(reading := Some(Pending(w.s.rows))) else w
    case Crash => w.(reading := None)
    case Turn(o) =>
      if w.reading == None then w
      else if w.reading.value == [] || w.reading.value[0] >= |w.s.rows| then w.(reading := None)
      else
        var rest := w.reading.value;
        World(PushRow(w.s, rest[0], o), if o == Marked then Some(rest[1..]) else None)
  }

  function Run(w: World, es: seq<Event>): World
    decreases es
  {
    if es == [] then w else Run(Step(w, es[0]), es[1..])
  }

  function Turns(outcomes: seq<Outcome>): (es: seq<Event>)
    ensures |es| == |outcomes| && forall i :: 0 <= i < |es| ==> es[i] == Turn(outcomes[i])
  {
    seq(|outcomes|, i requires 0 <= i < |outcomes| => Turn(outcomes[i]))
  }

  lemma {:induction false} TurnsIdle(s: State, outcomes: seq<Outcome>)
    ensures Run(World(s, None), Turns(outcomes)) == World(s, None)
  {
    if outcomes != [] {
      assert Turns(outcomes)[1..] == Turns(outcomes[1..]);
      TurnsIdle(s, outcomes[1..]);
    }
  }

  lemma {:induction false} TurnsFrom(s: State, pending: seq<nat>, outcomes: seq<Outcome>, k: nat)
    requires k <= |pending| && k <= |outcomes| && forall j :: 0 <= j < |pending| ==> pending[j] < |s.rows|
    ensures Run(World(s, Some(pending[k..])), Turns(outcomes[k..])).s == PushFrom(s, pending, outcomes, k)
    decreases |outcomes| - k
  {
    if k < |outcomes| {
      var es := Turns(outcomes[k..]);
      assert es[0] == Turn(outcomes[k]) && es[1..] == Turns(outcomes[k + 1..]);
      if k < |pending| && outcomes[k] == Marked {
        assert pending[k..][1..] == pending[k + 1..];
        TurnsFrom(PushRow(s, pending[k], Marked), pending, outcomes, k + 1);
      } else {
        TurnsIdle(Step(World(s, Some(pending[k..])), es[0]).s, outcomes[k + 1..]);
      }
    }
  }

  /** A push whose turns follow one another is what `GraphOutboxPush` does. */
  lemma TurnsArePush(s: State, outcomes: seq<Outcome>)
    ensures Run(Step(World(s, None), BeginPush), Turns(outcomes)).s == Push(s, outcomes)
  {
    TurnsFrom(s, Pending(s.rows), outcomes, 0);
    assert outcomes[0..] == outcomes && Pending(s.rows)[0..] == Pending(s.rows);
  }

  /** The log with adjacent repeats collapsed. */
  function Collapse(h: seq<Applied>): seq<Applied> {
    if |h| <= 1 then h
    else if h[|h| - 1] == h[|h| - 2] then Collapse(h[..|h| - 1])
    else Collapse(h[..|h| - 1]) + [h[|h| - 1]]
  }

  function AsApplied(rows: seq<Row>): (h: seq<Applied>)
    ensures |h| == |rows| && forall i :: 0 <= i < |rows| ==> h[i] == Applied(i, rows[i].op)
  {
    seq(|rows|, i requires 0 <= i < |rows| => Applied(i, rows[i].op))
  }

  /** The first `n` rows and no others are marked; the hub has had them in order,
      and at most the next one besides. */
  ghost predicate InOrder(s: State, n: nat) {
    && n <= |s.rows| && (forall i :: 0 <= i < |s.rows| ==> (s.rows[i].pushed <==> i < n))
    && (Collapse(s.hub) == AsApplied(s.rows[..n]) || (n < |s.rows| && Collapse(s.hub) == AsApplied(s.rows[..n + 1])))
  }

  lemma {:induction false} CollapseLast(h: seq<Applied>)
    requires h != []
    ensures Collapse(h) != [] && Collapse(h)[|Collapse(h)| - 1] == h[|h| - 1]
  {
    if |h| > 1 && h[|h| - 1] == h[|h| - 2] {
      CollapseLast(h[..|h| - 1]);
    }
  }

  lemma {:induction false} CollapseAppend(h: seq<Applied>, a: Applied)
    ensures Collapse(h + [a]) ==
      if Collapse(h) != [] && Collapse(h)[|Collapse(h)| - 1] == a then Collapse(h) else Collapse(h) + [a]
  {
    if h != [] {
      CollapseLast(h);
      assert (h + [a])[..|h|] == h;
    } else {
      assert h + [a] == [a];
    }
  }

  lemma {:induction false} PendingOfPrefix(rows: seq<Row>, n: nat)
    requires n <= |rows| && forall i :: 0 <= i < |rows| ==> (rows[i].pushed <==> i < n)
    ensures |Pending(rows)| == |rows| - n && forall k :: 0 <= k < |rows| - n ==> Pending(rows)[k] == n + k
  {
    if rows != [] {
      var last := |rows| - 1;
      if n <= last {
        PendingOfPrefix(rows[..last], n);
      } else {
        PendingOfPrefix(rows[..last], last);
      }
    }
  }

  /** Applying row `n` at the hub once more leaves the collapsed log at `n + 1` rows. */
  lemma ApplyNext(s: State, n: nat)
    requires InOrder(s, n) && n < |s.rows|
    ensures Collapse(s.hub + [Applied(n, s.rows[n].op)]) == AsApplied(s.rows[..n + 1])
  {
    var a, done := Applied(n, s.rows[n].op), AsApplied(s.rows[..n]);
    AppliedNext(s.rows, n);
    CollapseAppend(s.hub, a);
    if Collapse(s.hub) == done {
      assert done != [] ==> done[|done| - 1].row == n - 1;
    } else {
      assert Collapse(s.hub) == done + [a];
    }
  }

  lemma AppliedNext(rows: seq<Row>, n: nat)
    requires n < |rows|
    ensures AsApplied(rows[..n + 1]) == AsApplied(rows[..n]) + [Applied(n, rows[n].op)]
  {
  }

  lemma PushRowInOrder(s: State, n: nat, o: Outcome)
    requires InOrder(s, n) && n < |s.rows|
    ensures InOrder(PushRow(s, n, o), if o == Marked then n + 1 else n)
  {
    ApplyNext(s, n);
    if o == Marked {
      assert AsApplied(PushRow(s, n, o).rows[..n + 1]) == AsApplied(s.rows[..n + 1]);
    }
  }

  lemma {:induction false} PushFromInOrder(s: State, n: nat, pending: seq<nat>, outcomes: seq<Outcome>, k: nat)
    requires k <= |pending| && |pending| - k == |s.rows| - n && InOrder(s, n)
    requires forall j :: 0 <= j < |pending| ==> pending[j] == n - k + j
    ensures InOrder(PushFrom(s, pending, outcomes, k), n + Marks(outcomes, |pending|, k))
    decreases |pending| - k
  {
    hide InOrder;
    if k < |pending| && k < |outcomes| {
      assert pending[k] == n;
      var s' := PushRow(s, n, outcomes[k]);
      assert |s'.rows| == |s.rows|;
      PushRowInOrder(s, n, outcomes[k]);
      if outcomes[k] == Marked {
        PushFromInOrder(s', n + 1, pending, outcomes, k + 1);
      }
    }
  }

  /** The count a push reports is how far the prefix of pushed rows has grown. */
  lemma PushedCount(s: State, n: nat, outcomes: seq<Outcome>)
    requires InOrder(s, n)
    ensures InOrder(Push(s, outcomes), n + Marks(outcomes, |Pending(s.rows)|, 0))
  {
    PendingOfPrefix(s.rows, n);
    PushFromInOrder(s, n, Pending(s.rows), outcomes, 0);
  }

  lemma AppendInOrder(s: State, n: nat, op: Op)
    requires InOrder(s, n)
    ensures InOrder(Append(s, op), n)
  {
    var r := Append(s, op).rows;
    assert r[..n] == s.rows[..n];
    if n < |s.rows| { assert r[..n + 1] == s.rows[..n + 1]; }
  }

  /** In order, and a push in progress has the next rows before it, though not
      those recorded since it read. */
  ghost predicate Proceeds(w: World, n: nat) {
    && InOrder(w.s, n)
    && (w.reading.Some? ==> Ahead(w.reading.value, n, |w.s.rows|))
  }

  ghost predicate Ahead(rest: seq<nat>, n: nat, size: nat) {
    n + |rest| <= size && forall j :: 0 <= j < |rest| ==> rest[j] == n + j
  }

  lemma PendingAhead(s: State, n: nat)
    requires InOrder(s, n)
    ensures Ahead(Pending(s.rows), n, |s.rows|)
  {
    PendingOfPrefix(s.rows, n);
  }

  lemma TurnProceeds(w: World, n: nat, o: Outcome) returns (m: nat)
    requires Proceeds(w, n) && w.reading.Some? && w.reading.value != []
    ensures n <= m && Proceeds(Step(w, Turn(o)), m)
  {
    hide InOrder;
    var rest := w.reading.value;
    assert rest[0] == n;
    m := if o == Marked then n + 1 else n;
    InOrderWithin(w.s, n);
    PushRowInOrder(w.s, n, o);
    assert o == Marked ==> Ahead(rest[1..], n + 1, |w.s.rows|);
  }

  lemma InOrderWithin(s: State, n: nat)
    requires InOrder(s, n)
    ensures n <= |s.rows|
  {
  }

  lemma StepProceeds(w: World, n: nat, e: Event) returns (m: nat)
    requires Proceeds(w, n)
    ensures n <= m && Proceeds(Step(w, e), m)
  {
    hide InOrder;
    m := n;
    match e
    case Recorded(op) => AppendInOrder(w.s, n, op);
    case BeginPush => PendingAhead(w.s, n);
    case Crash =>
    case Turn(o) => if w.reading.Some? && w.reading.value != [] { m := TurnProceeds(w, n, o); }
  }

  lemma {:induction false} RunInOrder(w: World, n: nat, es: seq<Event>) returns (m: nat)
    requires Proceeds(w, n)
    ensures n <= m && Proceeds(Run(w, es), m)
    decreases es
  {
    m := n;
    if es != [] {
      m := StepProceeds(w, n, es[0]);
      m := RunInOrder(Step(w, es[0]), m, es[1..]);
    }
  }

  /** Over any sequence of records, push turns, hub failures and crashes, records
      in the middle of a push among them, the pushed rows are a prefix of the
      outbox, and the hub's log without its adjacent repeats is that prefix or that
      prefix and the one row after it. */
  lemma PushedIsPrefix(es: seq<Event>) returns (n: nat)
    ensures var s := Run(World(State([], []), None), es).s;
      && n <= |s.rows| && (forall i :: 0 <= i < |s.rows| ==> (s.rows[i].pushed <==> i < n))
      && (Collapse(s.hub) == AsApplied(s.rows[..n]) || (n < |s.rows| && Collapse(s.hub) == AsApplied(s.rows[..n + 1])))
  {
    n := RunInOrder(World(State([], []), None), 0, es);
  }

  lemma {:induction false} AllMarked(outcomes: seq<Outcome>, n: nat, k: nat)
    requires k <= n <= |outcomes| && forall j :: 0 <= j < n ==> outcomes[j] == Marked
    ensures Marks(outcomes, n, k) == n - k
    decreases n - k
  {
    if k < n { AllMarked(outcomes, n, k + 1); }
  }

  /** A push in which nothing fails leaves nothing pending, and the hub then has
      every row exactly in order. */
  lemma CleanPush(s: State, n: nat, outcomes: seq<Outcome>)
    requires InOrder(s, n) && |Pending(s.rows)| <= |outcomes|
    requires forall j :: 0 <= j < |Pending(s.rows)| ==> outcomes[j] == Marked
    ensures var r := Push(s, outcomes);
      InOrder(r, |s.rows|) && |r.rows| == |s.rows| && Collapse(r.hub) == AsApplied(r.rows)
  {
    var r := Push(s, outcomes);
    PendingOfPrefix(s.rows, n);
    AllMarked(outcomes, |Pending(s.rows)|, 0);
    PushedCount(s, n, outcomes);
    PushKeepsRows(s, Pending(s.rows), outcomes, 0);
    assert r.rows[..|s.rows|] == r.rows;
  }

  lemma {:induction false} PushKeepsRows(s: State, pending: seq<nat>, outcomes: seq<Outcome>, k: nat)
    requires forall j :: 0 <= j < |pending| ==> pending[j] < |s.rows|
    ensures |PushFrom(s, pending, outcomes, k).rows| == |s.rows|
    decreases |pending| - k
  {
    if k < |pending| && k < |outcomes| && outcomes[k] == Marked {
      PushKeepsRows(PushRow(s, pending[k], Marked), pending, outcomes, k + 1);
    }
  }

  // ----- what is recorded and what arrives -----

  function OpsOf(rows: seq<Row>): (ops: seq<Op>)
    ensures |ops| == |rows| && forall i :: 0 <= i < |rows| ==> ops[i] == rows[i].op
  {
    seq(|rows|, i requires 0 <= i < |rows| => rows[i].op)
  }

  /** The operations recorded in a run, in order. */
  function RecordedOps(es: seq<Event>): seq<Op> {
    if es == [] then [] else (if es[0].Recorded? then [es[0].op] else []) + RecordedOps(es[1..])
  }

  lemma StepRows(w: World, e: Event)
    ensures OpsOf(Step(w, e).s.rows) == OpsOf(w.s.rows) + if e.Recorded? then [e.op] else []
  {
  }

  /** The outbox holds every operation recorded, in order, whatever pushes and crashes
      come between. */
  lemma {:induction false} RowsAreRecorded(w: World, es: seq<Event>)
    ensures OpsOf(Run(w, es).s.rows) == OpsOf(w.s.rows) + RecordedOps(es)
    decreases es
  {
    if es != [] {
      StepRows(w, es[0]);
      RowsAreRecorded(Step(w, es[0]), es[1..]);
      var first := if es[0].Recorded? then [es[0].op] else [];
      assert OpsOf(w.s.rows) + first + RecordedOps(es[1..]) == OpsOf(w.s.rows) + (first + RecordedOps(es[1..]));
    }
  }

  /** One turn of a push at row `i`: a refusal changes nothing, an operation that arrives
      is added to the log of the hub, and only if the mark follows too is the row marked
      and the push goes on to the next row. */
  lemma TurnStores(w: World, o: Outcome)
    requires w.reading.Some? && w.reading.value != [] && w.reading.value[0] < |w.s.rows|
    ensures var i, t := w.reading.value[0], Step(w, Turn(o));
      && t.s.hub == (if o == Refused then w.s.hub else w.s.hub + [Applied(i, w.s.rows[i].op)])
      && t.s.rows == (if o == Marked then w.s.rows[i := Row(w.s.rows[i].op, true)] else w.s.rows)
      && t.reading == if o == Marked then Some(w.reading.value[1..]) else None
  {
  }

  /** A push reads the rows that are not marked, in order, unless one is under way; a
      crash forgets what was read and loses no row. */
  lemma PushReads(w: World)
    ensures Step(w, Crash) == World(w.s, None)
    ensures w.reading.Some? ==> Step(w, BeginPush) == w
    ensures w.reading == None ==>
      var t := Step(w, BeginPush);
      && t.s == w.s && t.reading.Some?
      && (forall i, j :: 0 <= i < j < |t.reading.value| ==> t.reading.value[i] < t.reading.value[j])
      && forall i: nat :: i in t.reading.value <==> i < |w.s.rows| && !w.s.rows[i].pushed
  {
    PendingInOrder(w.s.rows);
  }

  lemma {:induction false} PendingInOrder(rows: seq<Row>)
    ensures forall i, j :: 0 <= i < j < |Pending(rows)| ==> Pending(rows)[i] < Pending(rows)[j]
    ensures forall i: nat :: i in Pending(rows) <==> i < |rows| && !rows[i].pushed
  {
    if rows != [] {
      var init := rows[..|rows| - 1];
      PendingInOrder(init);
      forall i: nat ensures i in Pending(rows) <==> i < |rows| && !rows[i].pushed {
        if i < |init| { assert init[i] == rows[i]; }
      }
    }
  }
}
