/** Replay protection: the timestamp check of `verifyOrWarn`, the nonce table
    with its primary key (nonce, agent), and the periodic sweep. Times are
    milliseconds of one clock that does not run backwards. */
module NonceTable {

  const SIG_TS_WINDOW_SECS := 60
  const NONCE_SWEEP_WINDOW_MINUTES := 10

  /** `Math.abs(now / 1000 - ts) > SIG_TS_WINDOW_SECS`, negated. */
  predicate Timely(now: int, ts: nat) {
    -1000 * SIG_TS_WINDOW_SECS <= now - 1000 * ts <= 1000 * SIG_TS_WINDOW_SECS
  }

  const RETENTION := NONCE_SWEEP_WINDOW_MINUTES * 60_000

  /** The payload of an envelope whose signature, key, method and params have
      been found in order. */
  datatype Envelope = Envelope(agentId: string, nonce: string, ts: nat)

  type Key = (string, string)

  function KeyOf(e: Envelope): Key { (e.nonce, e.agentId) }

  /** The table, at a moment. */
  datatype State = State(now: int, seen: map<Key, int>)

  /** A verification reads the clock for the timestamp check at `checked` and has
      its insert executed by the database at the present moment. */
  datatype Event = Tick(to: int) | Verify(envelope: Envelope, checked: int) | Sweep

  function Insert(s: State, k: Key): (r: (State, bool))
    ensures r.1 <==> k !in s.seen
  {
    if k in s.seen then (s, false) else (s.(seen := s.seen[k := s.now]), true)
  }

  function Swept(s: State): State {
    s.(seen := map k | k in s.seen && s.seen[k] >= s.now - RETENTION :: s.seen[k])
  }

  /** Whether the envelope comes out as verified. */
  predicate Accepted(s: State, e: Event) {
    e.Verify? && e.checked <= s.now && Timely(e.checked, e.envelope.ts) && KeyOf(e.envelope) !in s.seen
  }

  function Step(s: State, e: Event): State {
    match e
    case Tick(to) => if to >= s.now then s.(now := to) else s
    case Verify(envelope, checked) => if Accepted(s, e) then Insert(s, KeyOf(envelope)).0 else s
    case Sweep => Swept(s)
  }

  function Run(s: State, es: seq<Event>): State
    decreases es
  {
    if es == [] then s else Run(Step(s, es[0]), es[1..])
  }

  /** The table the daemon keeps. */
  class NonceStore {
    var seen: map<Key, int>

    constructor ()
      ensures seen == map[]
    {
      seen := map[];
    }

    /** INSERT; a duplicate key makes it fail. */
    method Record(now: int, e: Envelope) returns (inserted: bool)
      modifies this
      ensures (State(now, seen), inserted) == Insert(State(now, old(seen)), KeyOf(e))
    {
      inserted := KeyOf(e) !in seen;
      if inserted { seen := seen[KeyOf(e) := now]; }
    }

    method SweepOld(now: int)
      modifies this
      ensures State(now, seen) == Swept(State(now, old(seen)))
    {
      var keys := seen.Keys;
      var kept := seen;
      while keys != {}
        invariant keys <= seen.Keys
        invariant kept == map k | k in seen && (k in keys || seen[k] >= now - RETENTION) :: seen[k]
        decreases keys
      {
        var k :| k in keys;
        keys := keys - {k};
        if seen[k] < now - RETENTION { kept := kept - {k}; }
      }
      seen := kept;
    }
  }

  /** Every insert is executed within `delay` of its timestamp check. */
  ghost predicate Prompt(s: State, es: seq<Event>, delay: int)
    decreases es
  {
    es == [] || ((es[0].Verify? ==> s.now <= es[0].checked + delay) && Prompt(Step(s, es[0]), es[1..], delay))
  }

  /** How often the envelope is accepted during a run. */
  ghost function Acceptances(s: State, es: seq<Event>, envelope: Envelope): nat
    decreases es
  {
    if es == [] then 0
    else
      (if Accepted(s, es[0]) && es[0].envelope == envelope then 1 else 0)
      + Acceptances(Step(s, es[0]), es[1..], envelope)
  }

  /** The longest delay under which the retention covers both timestamp windows. */
  const SAFE_DELAY := RETENTION - 2 * 1000 * SIG_TS_WINDOW_SECS

  /** The nonce of `e` is still in the table, or `e` is past its window for good. */
  ghost predicate Spent(s: State, e: Envelope, delay: int) {
    || (KeyOf(e) in s.seen && s.seen[KeyOf(e)] >= 1000 * e.ts - 1000 * SIG_TS_WINDOW_SECS)
    || s.now > 1000 * e.ts + 1000 * SIG_TS_WINDOW_SECS + delay
  }

  lemma {:induction false} SpentForever(s: State, es: seq<Event>, e: Envelope, delay: int)
    requires delay <= SAFE_DELAY && Prompt(s, es, delay) && Spent(s, e, delay)
    ensures Acceptances(s, es, e) == 0
    decreases es
  {
    if es != [] {
      SpentForever(Step(s, es[0]), es[1..], e, delay);
    }
  }

  /** No envelope verifies twice, although old nonces are swept. */
  lemma {:induction false} NoReplay(s: State, es: seq<Event>, e: Envelope)
    requires Prompt(s, es, SAFE_DELAY)
    ensures Acceptances(s, es, e) <= 1
    decreases es
  {
    if es != [] {
      if Accepted(s, es[0]) && es[0].envelope == e {
        SpentForever(Step(s, es[0]), es[1..], e, SAFE_DELAY);
      } else {
        NoReplay(Step(s, es[0]), es[1..], e);
      }
    }
  }

  /** With longer delays between check and insert a replay gets through. */
  function ReplayRun(e: Envelope, delay: int): seq<Event> {
    var first := 1000 * e.ts - 1000 * SIG_TS_WINDOW_SECS;
    var last := 1000 * e.ts + 1000 * SIG_TS_WINDOW_SECS;
    [Tick(first), Verify(e, first), Tick(last + delay), Sweep, Verify(e, last)]
  }

  lemma ReplayBeyondSafeDelay(e: Envelope, delay: int)
    requires delay > SAFE_DELAY
    ensures var s := State(1000 * e.ts - 1000 * SIG_TS_WINDOW_SECS, map[]);
      Prompt(s, ReplayRun(e, delay), delay) && Acceptances(s, ReplayRun(e, delay), e) == 2
  {
    var es := ReplayRun(e, delay);
    var s0 := State(1000 * e.ts - 1000 * SIG_TS_WINDOW_SECS, map[]);
    var s1 := Step(s0, es[0]);
    var s2 := Step(s1, es[1]);
    var s3 := Step(s2, es[2]);
    var s4 := Step(s3, es[3]);
    var s5 := Step(s4, es[4]);
    assert es[4..] == [es[4]] && es[3..][1..] == es[4..] && es[2..][1..] == es[3..] && es[1..][1..] == es[2..];
    assert Acceptances(s5, [], e) == 0 && Acceptances(s4, es[4..], e) == 1;
    assert Acceptances(s3, es[3..], e) == 1 && Acceptances(s2, es[2..], e) == 1 && Acceptances(s1, es[1..], e) == 2;
    assert Prompt(s5, [], delay) && Prompt(s4, es[4..], delay) && Prompt(s3, es[3..], delay);
    assert Prompt(s2, es[2..], delay) && Prompt(s1, es[1..], delay);
  }

  /** So replay is impossible in every run exactly when inserts are never more
      than eight minutes later than their checks. */
  lemma ReplayFreeIff(delay: int)
    ensures delay <= 480_000 <==>
      forall s, es, e :: Prompt(s, es, delay) ==> Acceptances(s, es, e) <= 1
  {
    if delay <= SAFE_DELAY {
      forall s, es, e | Prompt(s, es, delay) ensures Acceptances(s, es, e) <= 1 {
        PromptWeaken(s, es, delay, SAFE_DELAY);
        NoReplay(s, es, e);
      }
    } else {
      ReplayBeyondSafeDelay(Envelope("", "", 0), delay);
    }
  }

  lemma {:induction false} PromptWeaken(s: State, es: seq<Event>, short: int, long: int)
    requires short <= long && Prompt(s, es, short)
    ensures Prompt(s, es, long)
    decreases es
  {
    if es != [] { PromptWeaken(Step(s, es[0]), es[1..], short, long); }
  }

  /** An envelope is accepted exactly if its timestamp was within a minute of the clock
      at the check and its agent has no row with its nonce; then it gets one. */
  lemma VerifyStores(s: State, envelope: Envelope, checked: int)
    ensures var e, k := Verify(envelope, checked), (envelope.nonce, envelope.agentId);
      && (Accepted(s, e) <==>
          checked <= s.now && -60_000 <= checked - 1000 * envelope.ts <= 60_000 && k !in s.seen)
      && Step(s, e) == if Accepted(s, e) then State(s.now, s.seen[k := s.now]) else s
  {
  }

  /** A sweep takes exactly the rows older than ten minutes. */
  lemma SweepTakes(s: State, k: Key)
    ensures var t := Step(s, Sweep);
      && t.now == s.now && (k in t.seen <==> k in s.seen && s.seen[k] >= s.now - 600_000)
      && (k in t.seen ==> t.seen[k] == s.seen[k])
  {
  }

  /** A nonce of an agent is in the table only if an envelope of this agent with this
      nonce was accepted, so a first use is never taken for a replay. */
  lemma {:induction false} SeenWasAccepted(s: State, es: seq<Event>, agentId: string, nonce: string)
    returns (j: nat)
    requires (nonce, agentId) !in s.seen && (nonce, agentId) in Run(s, es).seen
    ensures j < |es| && es[j].Verify? && Accepted(Run(s, es[..j]), es[j])
    ensures es[j].envelope.agentId == agentId && es[j].envelope.nonce == nonce
    decreases es
  {
    var t := Step(s, es[0]);
    if (nonce, agentId) in t.seen {
      j := 0;
    } else {
      j := SeenWasAccepted(t, es[1..], agentId, nonce);
      assert es[..j + 1][1..] == es[1..][..j];
      j := j + 1;
    }
  }
}
