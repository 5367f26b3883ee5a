/** `PairingRateLimiter`: exponential lockout per source and a global cooldown.
    Times are milliseconds. An attempt's check and its record are one step. */
module PairingLimiter {

  type Source = string

  datatype Config = Config(lockoutThreshold: int, baseLockoutMs: nat, maxLockoutMs: nat, globalCeiling: int)

  datatype Record = Record(failures: nat, lockedUntil: int)

  datatype Limiter = Limiter(perSource: map<Source, Record>, globalFailures: nat, globalLockedUntil: int)

  function Pow2(k: nat): (r: nat)
    ensures r >= 1
  {
    if k == 0 then 1 else 2 * Pow2(k - 1)
  }

  function Least(a: int, b: int): int { if a <= b then a else b }

  /** The lockout that follows failure number `failures`. */
  function Lockout(c: Config, failures: nat): (ms: nat)
    ensures failures < c.lockoutThreshold ==> ms == 0
  {
    if failures < c.lockoutThreshold then 0
    else
      var grown: nat := c.baseLockoutMs * Pow2(failures - c.lockoutThreshold);
      Least(grown, c.maxLockoutMs)
  }

  function RecordOf(l: Limiter, source: Source): Record {
    if source in l.perSource then l.perSource[source] else Record(0, 0)
  }

  function RetryAfter(l: Limiter, source: Source, now: int): int {
    if now < l.globalLockedUntil then l.globalLockedUntil - now
    else if source in l.perSource && now < l.perSource[source].lockedUntil then l.perSource[source].lockedUntil - now
    else 0
  }

  function Succeed(l: Limiter, source: Source): Limiter {
    l.(perSource := l.perSource - {source})
  }

  /** Whether one more failure reaches the global ceiling. */
  predicate Trips(c: Config, l: Limiter) {
    l.globalFailures + 1 >= c.globalCeiling
  }

  function Fail(c: Config, l: Limiter, source: Source, now: int): Limiter {
    var was := RecordOf(l, source);
    var failures := was.failures + 1;
    var lockedUntil := if failures >= c.lockoutThreshold then now + Lockout(c, failures) else was.lockedUntil;
    Limiter(l.perSource[source := Record(failures, lockedUntil)],
            if Trips(c, l) then 0 else l.globalFailures + 1,
            if Trips(c, l) then now + c.baseLockoutMs else l.globalLockedUntil)
  }

  class PairingRateLimiter {
    const cfg: Config
    var perSource: map<Source, Record>
    var globalFailures: nat
    var globalLockedUntil: int

    function Value(): Limiter
      reads this
    {
      Limiter(perSource, globalFailures, globalLockedUntil)
    }

    constructor (c: Config)
      ensures cfg == c && Value() == Limiter(map[], 0, 0)
    {
      cfg, perSource, globalFailures, globalLockedUntil := c, map[], 0, 0;
    }

    method RetryAfterMs(source: Source, now: int) returns (ms: int)
      ensures ms == RetryAfter(Value(), source, now)
      ensures ms == 0 <==> now >= globalLockedUntil && (source in perSource ==> now >= perSource[source].lockedUntil)
    {
      if now < globalLockedUntil { return globalLockedUntil - now; }
      if source in perSource && now < perSource[source].lockedUntil { return perSource[source].lockedUntil - now; }
      ms := 0;
    }

    method RecordSuccess(source: Source)
      modifies this
      ensures Value() == Succeed(old(Value()), source)
    {
      perSource := perSource - {source};
    }

    method RecordFailure(source: Source, now: int) returns (failures: nat, lockMs: nat, globalTripped: bool)
      modifies this
      ensures Value() == Fail(cfg, old(Value()), source, now)
      ensures failures == RecordOf(Value(), source).failures && lockMs == Lockout(cfg, failures)
      ensures globalTripped == Trips(cfg, old(Value()))
    {
      var rec := if source in perSource then perSource[source] else Record(0, 0);
      rec := rec.(failures := rec.failures + 1);
      lockMs := 0;
      if rec.failures >= cfg.lockoutThreshold {
        var over := rec.failures - cfg.lockoutThreshold;
        var grown: nat := cfg.baseLockoutMs * Pow2(over);
        lockMs := Least(grown, cfg.maxLockoutMs);
        rec := rec.(lockedUntil := now + lockMs);
      }
      perSource := perSource[source := rec];
      globalFailures := globalFailures + 1;
      globalTripped := false;
      if globalFailures >= cfg.globalCeiling {
        globalLockedUntil := now + cfg.baseLockoutMs;
        globalFailures := 0;
        globalTripped := true;
      }
      failures := rec.failures;
    }
  }

  // ----- runs -----

  datatype Attempt = Attempt(source: Source, at: int, ok: bool)

  /** The attempt gets past the check. */
  predicate Admitted(l: Limiter, a: Attempt) {
    RetryAfter(l, a.source, a.at) == 0
  }

  predicate Fails(l: Limiter, a: Attempt) {
    Admitted(l, a) && !a.ok
  }

  function Step(c: Config, l: Limiter, a: Attempt): Limiter {
    if !Admitted(l, a) then l else if a.ok then Succeed(l, a.source) else Fail(c, l, a.source, a.at)
  }

  function Run(c: Config, l: Limiter, es: seq<Attempt>): Limiter
    decreases es
  {
    if es == [] then l else Run(c, Step(c, l, es[0]), es[1..])
  }

  function Failures(c: Config, l: Limiter, es: seq<Attempt>): nat
    decreases es
  {
    if es == [] then 0 else (if Fails(l, es[0]) then 1 else 0) + Failures(c, Step(c, l, es[0]), es[1..])
  }

  /** How often the global ceiling is reached. */
  function TripCount(c: Config, l: Limiter, es: seq<Attempt>): nat
    decreases es
  {
    if es == [] then 0
    else (if Fails(l, es[0]) && Trips(c, l) then 1 else 0) + TripCount(c, Step(c, l, es[0]), es[1..])
  }

  /** The attempts come in the order of time, between `from` and `to`. */
  ghost predicate Timed(es: seq<Attempt>, from: int, to: int) {
    && (forall i :: 0 <= i < |es| ==> from <= es[i].at <= to)
    && (forall i, j :: 0 <= i < j < |es| ==> es[i].at <= es[j].at)
  }

  /** Failures are conserved: each trip accounts for a whole ceiling of them. */
  lemma {:induction false} FailuresConserved(c: Config, l: Limiter, es: seq<Attempt>)
    requires c.globalCeiling >= 1 && l.globalFailures < c.globalCeiling
    ensures Run(c, l, es).globalFailures < c.globalCeiling
    ensures Failures(c, l, es) + l.globalFailures ==
      c.globalCeiling * TripCount(c, l, es) + Run(c, l, es).globalFailures
    decreases es
  {
    if es != [] {
      var l' := Step(c, l, es[0]);
      FailuresConserved(c, l', es[1..]);
      var m, m' := TripCount(c, l, es), TripCount(c, l', es[1..]);
      if Fails(l, es[0]) && Trips(c, l) {
        assert m == m' + 1;
        assert c.globalCeiling * m == c.globalCeiling * m' + c.globalCeiling;
      }
    }
  }

  function Later(a: int, b: int): int { if a >= b then a else b }

  /** Trips are a base lockout apart. */
  lemma {:induction false} TripsApart(c: Config, l: Limiter, es: seq<Attempt>, from: int, to: int)
    requires Timed(es, from, to) && TripCount(c, l, es) >= 1
    ensures (TripCount(c, l, es) - 1) * c.baseLockoutMs <= to - Later(from, l.globalLockedUntil)
    decreases es
  {
    var a, l' := es[0], Step(c, l, es[0]);
    assert es[0].at >= from && forall i :: 0 <= i < |es[1..]| ==> es[1..][i] == es[i + 1];
    var m' := TripCount(c, l', es[1..]);
    if m' >= 1 {
      TripsApart(c, l', es[1..], a.at, to);
    }
    if Fails(l, a) && Trips(c, l) {
      assert a.at >= Later(from, l.globalLockedUntil) && l'.globalLockedUntil == a.at + c.baseLockoutMs;
      if m' >= 1 {
        assert m' * c.baseLockoutMs == (m' - 1) * c.baseLockoutMs + c.baseLockoutMs;
      }
    }
  }

  lemma QuotientBound(m: int, base: int, t: int)
    requires base >= 1 && m * base <= t
    ensures m <= t / base
  {
    if m > t / base {
      Monotone(base, t / base + 1, m);
    }
  }

  lemma TripBound(c: Config, l: Limiter, es: seq<Attempt>, from: int, to: int)
    requires c.baseLockoutMs >= 1 && from <= to && Timed(es, from, to)
    ensures TripCount(c, l, es) <= (to - from) / c.baseLockoutMs + 1
  {
    var m := TripCount(c, l, es);
    if m >= 1 {
      TripsApart(c, l, es, from, to);
      QuotientBound(m - 1, c.baseLockoutMs, to - from);
    }
  }

  lemma FewerThan(ceiling: nat, trips: int, bound: int, failures: int, before: nat, after: int)
    requires failures + before == ceiling * trips + after && after < ceiling && trips <= bound
    ensures failures < ceiling * (bound + 1)
  {
    Monotone(ceiling, trips + 1, bound + 1);
    assert ceiling * (trips + 1) == ceiling * trips + ceiling;
  }

  /** In any window of length `to - from` fewer than ceiling * (window / base + 2)
      failures are recorded, whatever the sources and the state at its start. */
  lemma WindowBound(c: Config, l: Limiter, es: seq<Attempt>, from: int, to: int)
    requires c.globalCeiling >= 1 && c.baseLockoutMs >= 1 && l.globalFailures < c.globalCeiling
    requires from <= to && Timed(es, from, to)
    ensures Failures(c, l, es) < c.globalCeiling * ((to - from) / c.baseLockoutMs + 2)
  {
    FailuresConserved(c, l, es);
    TripBound(c, l, es, from, to);
    FewerThan(c.globalCeiling, TripCount(c, l, es), (to - from) / c.baseLockoutMs + 1,
              Failures(c, l, es), l.globalFailures, Run(c, l, es).globalFailures);
  }

  lemma Monotone(c: int, a: int, b: int)
    requires c >= 0 && a <= b
    ensures c * a <= c * b
  {
  }

  // ----- one source -----

  function FailuresOf(c: Config, l: Limiter, es: seq<Attempt>, source: Source): nat
    decreases es
  {
    if es == [] then 0
    else
      (if Fails(l, es[0]) && es[0].source == source then 1 else 0)
      + FailuresOf(c, Step(c, l, es[0]), es[1..], source)
  }

  predicate NoSuccess(c: Config, l: Limiter, es: seq<Attempt>, source: Source)
    decreases es
  {
    es == [] ||
    (!(Admitted(l, es[0]) && es[0].ok && es[0].source == source) && NoSuccess(c, Step(c, l, es[0]), es[1..], source))
  }

  /** The lockouts after failures number `first` to `first + count - 1`. */
  function Lockouts(c: Config, first: nat, count: nat): nat
    decreases count
  {
    if count == 0 then 0 else Lockout(c, first) + Lockouts(c, first + 1, count - 1)
  }

  /** Once a source is past the threshold, n more failures before a success take
      at least the rest of the present lockout and then the n - 1 ever longer
      lockouts between them; the failure count grows by n. */
  lemma {:induction false} SourceBackoff(c: Config, l: Limiter, es: seq<Attempt>, source: Source, from: int, to: int)
    requires Timed(es, from, to) && NoSuccess(c, l, es, source)
    requires source in l.perSource && l.perSource[source].failures >= c.lockoutThreshold
    ensures var n, r := FailuresOf(c, l, es, source), l.perSource[source];
      && source in Run(c, l, es).perSource && Run(c, l, es).perSource[source].failures == r.failures + n
      && (n >= 1 ==> r.lockedUntil + Lockouts(c, r.failures + 1, n - 1) <= to)
    decreases es
  {
    if es != [] {
      assert forall i :: 0 <= i < |es[1..]| ==> es[1..][i] == es[i + 1];
      SourceBackoff(c, Step(c, l, es[0]), es[1..], source, es[0].at, to);
    }
  }

  /** Each lockout past the threshold is the base doubled once per failure, up to
      the maximum, and none is shorter than the one before. */
  lemma LockoutGrows(c: Config, k: nat)
    requires c.lockoutThreshold >= 0
    ensures Lockout(c, c.lockoutThreshold + k) == Least(c.baseLockoutMs * Pow2(k), c.maxLockoutMs)
    ensures Lockout(c, c.lockoutThreshold + k) <= Lockout(c, c.lockoutThreshold + k + 1)
    ensures c.baseLockoutMs * Pow2(k + 1) == 2 * (c.baseLockoutMs * Pow2(k))
  {
    assert c.baseLockoutMs * Pow2(k + 1) == c.baseLockoutMs * (2 * Pow2(k));
  }

  // ----- what one attempt meets, and what it leaves -----

  /** An attempt passes from the later of the two locks on. The wait that is answered
      is that of the gateway's lock while it runs, so an attempt after it passes
      exactly if the source's own lock does not run longer; while it lasts none does. */
  lemma WaitIff(l: Limiter, source: Source, now: int)
    ensures var wait := RetryAfter(l, source, now);
      && wait >= 0
      && (forall t :: now <= t < now + wait ==> RetryAfter(l, source, t) > 0)
      && (RetryAfter(l, source, now + wait) == 0 <==>
          !(source in l.perSource && now < l.globalLockedUntil < l.perSource[source].lockedUntil))
      && forall t :: RetryAfter(l, source, t) == 0 <==>
           t >= l.globalLockedUntil && (source in l.perSource ==> t >= l.perSource[source].lockedUntil)
  {
  }

  /** A failure counts one more for its source and locks it from the threshold on;
      other sources keep their records. The gateway is locked for a base lockout at
      the ceiling, when its count starts again. */
  lemma FailStores(c: Config, l: Limiter, source: Source, now: int)
    ensures var f := Fail(c, l, source, now);
      var failures := if source in l.perSource then l.perSource[source].failures + 1 else 1;
      && f.perSource.Keys == l.perSource.Keys + {source}
      && (forall s :: s in l.perSource && s != source ==> f.perSource[s] == l.perSource[s])
      && f.perSource[source].failures == failures
      && f.perSource[source].lockedUntil ==
           (if failures >= c.lockoutThreshold then
              var grown := c.baseLockoutMs * Pow2(failures - c.lockoutThreshold);
              now + if grown <= c.maxLockoutMs then grown else c.maxLockoutMs
            else if source in l.perSource then l.perSource[source].lockedUntil else 0)
      && f.globalFailures == (if l.globalFailures + 1 >= c.globalCeiling then 0 else l.globalFailures + 1)
      && f.globalLockedUntil ==
           (if l.globalFailures + 1 >= c.globalCeiling then now + c.baseLockoutMs else l.globalLockedUntil)
  {
  }

  /** The first lockout is the base, each further one doubles. */
  lemma Doubles(k: nat)
    ensures Pow2(0) == 1 && Pow2(k + 1) == 2 * Pow2(k)
  {
  }

  /** A success forgets its source and leaves everything else. */
  lemma SuccessForgets(l: Limiter, source: Source, now: int)
    ensures var s := Succeed(l, source);
      && source !in s.perSource && s.globalFailures == l.globalFailures && s.globalLockedUntil == l.globalLockedUntil
      && (forall t :: t != source ==>
           (t in s.perSource <==> t in l.perSource) && (t in l.perSource ==> s.perSource[t] == l.perSource[t]))
      && (RetryAfter(s, source, now) == 0 <==> now >= l.globalLockedUntil)
  {
  }

  ghost predicate StartsAgain(c: Config, l: Limiter, source: Source, n: nat) {
    if n == 0 then source !in l.perSource
    else source in l.perSource && l.perSource[source].failures == n
         && (n < c.lockoutThreshold ==> l.perSource[source].lockedUntil == 0)
  }

  /** After a success the source starts from zero: its count is that of its failures
      since, and below the threshold nothing but the gateway's lock holds it. */
  lemma {:induction false} CountsSinceSuccess(c: Config, l: Limiter, es: seq<Attempt>, source: Source, n: nat)
    requires StartsAgain(c, l, source, n) && NoSuccess(c, l, es, source)
    ensures StartsAgain(c, Run(c, l, es), source, n + FailuresOf(c, l, es, source))
    decreases es
  {
    if es != [] {
      var l' := Step(c, l, es[0]);
      var failed := if Fails(l, es[0]) && es[0].source == source then 1 else 0;
      CountsSinceSuccess(c, l', es[1..], source, n + failed);
    }
  }

  lemma AfterSuccess(c: Config, l: Limiter, es: seq<Attempt>, source: Source, now: int)
    requires NoSuccess(c, Succeed(l, source), es, source) && now >= 0
    requires FailuresOf(c, Succeed(l, source), es, source) < c.lockoutThreshold
    ensures var r := Run(c, Succeed(l, source), es);
      RetryAfter(r, source, now) == 0 <==> now >= r.globalLockedUntil
  {
    CountsSinceSuccess(c, Succeed(l, source), es, source, 0);
  }
}
