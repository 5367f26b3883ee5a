/** The hosted licence trust set: overlapping fetches, their failures, lifecycle
    resets, and the paid-method guard that rests on a fetched snapshot across
    its two network awaits. */
module LicenseTrust {
  import opened Options

  datatype Manifest = Manifest(digest: string, keyIds: seq<string>)

  datatype Snapshot = Snapshot(manifest: Manifest, generation: nat)

  /** The module state: request counter, accepted counter, accepted snapshot. */
  datatype Trust = Trust(requested: nat, generation: nat, accepted: Option<Snapshot>)

  function Reject(t: Trust, request: nat): Trust {
    if request == t.requested then t.(generation := t.generation + 1, accepted := None) else t
  }

  function Digest(t: Trust): Option<string> {
    match t.accepted
    case None => None
    case Some(s) => Some(s.manifest.digest)
  }

  function Accept(t: Trust, request: nat, m: Manifest): Trust {
    if request != t.requested then t
    else
      var generation := if Digest(t) != Some(m.digest) then t.generation + 1 else t.generation;
      t.(generation := generation, accepted := Some(Snapshot(m, generation)))
  }

  function Reset(t: Trust): Trust {
    Trust(t.requested + 1, t.generation + 1, None)
  }

  predicate IsCurrent(t: Trust, s: Snapshot) {
    Digest(t) == Some(s.manifest.digest) && s.generation == t.generation
  }

  /** The authority as the daemon holds it, one method per stretch of code
      between two awaits. */
  class LicenseAuthority {
    var trustRequestGeneration: nat
    var acceptedTrustGeneration: nat
    var acceptedTrustSnapshot: Option<Snapshot>

    function Value(): Trust
      reads this
    {
      Trust(trustRequestGeneration, acceptedTrustGeneration, acceptedTrustSnapshot)
    }

    constructor ()
      ensures Value() == Trust(0, 0, None)
    {
      trustRequestGeneration, acceptedTrustGeneration, acceptedTrustSnapshot := 0, 0, None;
    }

    method BeginFetch() returns (request: nat)
      modifies this
      ensures request == old(Value()).requested + 1
      ensures Value() == old(Value()).(requested := request)
    {
      trustRequestGeneration := trustRequestGeneration + 1;
      request := trustRequestGeneration;
    }

    method RejectLatestTrustRequest(request: nat) returns (result: Option<Snapshot>)
      modifies this
      ensures result == None && Value() == Reject(old(Value()), request)
    {
      if request == trustRequestGeneration {
        acceptedTrustGeneration := acceptedTrustGeneration + 1;
        acceptedTrustSnapshot := None;
      }
      result := None;
    }

    method AcceptManifest(request: nat, manifest: Manifest) returns (result: Option<Snapshot>)
      modifies this
      ensures Value() == Accept(old(Value()), request, manifest)
      ensures result == if request == old(Value()).requested then Value().accepted else None
    {
      if request != trustRequestGeneration { return None; }
      if acceptedTrustSnapshot == None || acceptedTrustSnapshot.value.manifest.digest != manifest.digest {
        acceptedTrustGeneration := acceptedTrustGeneration + 1;
      }
      acceptedTrustSnapshot := Some(Snapshot(manifest, acceptedTrustGeneration));
      result := acceptedTrustSnapshot;
    }

    method BeginLifecycle()
      modifies this
      ensures Value() == Reset(old(Value()))
    {
      trustRequestGeneration := trustRequestGeneration + 1;
      acceptedTrustGeneration := acceptedTrustGeneration + 1;
      acceptedTrustSnapshot := None;
    }

    method IsCurrentTrustSet(s: Snapshot) returns (current: bool)
      ensures current == IsCurrent(Value(), s)
    {
      current := acceptedTrustSnapshot.Some? && acceptedTrustSnapshot.value.manifest.digest == s.manifest.digest
                 && s.generation == acceptedTrustGeneration;
    }
  }

  // ----- guarded calls -----

  datatype Tier = Free | Pro | Max | Enterprise

  function Rank(t: Tier): nat {
    match t case Free => 0 case Pro => 1 case Max => 2 case Enterprise => 3
  }

  /** What `verifyLicenseJWT` says of a key at one moment: signature, expiry and
      local revocation are all behind `valid`. */
  datatype Claims = Claims(valid: bool, tier: Tier, verifiedKeyId: Option<string>, customerId: Option<string>,
      jti: Option<string>)

  /** The fields of the registry's answer that are compared. */
  datatype Answer = Answer(valid: bool, reason: string, tier: Tier, customerId: string, keyDigest: string,
      trustDigest: string, verifiedKeyId: string)

  predicate Registered(a: Answer, keyDigest: string, c: Claims, s: Snapshot) {
    && a.valid && (a.reason == "valid" || a.reason == "support_expired")
    && a.tier == c.tier && Some(a.customerId) == c.customerId && a.keyDigest == keyDigest
    && a.trustDigest == s.manifest.digest && Some(a.verifiedKeyId) == c.verifiedKeyId
    && a.verifiedKeyId in s.manifest.keyIds
  }

  type Id = nat

  /** Where a call of `guardRpcMethod` for a paid method stands. A licence key is
      named by its digest. */
  datatype Guard =
    | Fetching(required: Tier, key: string, request: nat)
    | Fetched(required: Tier, key: string, snapshot: Snapshot)
    | Verifying(required: Tier, key: string, snapshot: Snapshot, claims: Claims)
    | Verified(required: Tier, key: string, snapshot: Snapshot, claims: Claims)
    | Allowed(tier: Tier)
    | Denied

  datatype World = World(trust: Trust, guards: map<Id, Guard>)

  datatype Event =
    | Start(id: Id, required: Tier, key: Option<string>)
    | TrustFailed(id: Id)
    | TrustArrived(id: Id, manifest: Manifest)
    | CheckLocally(id: Id, claims: Claims)
    | VerifyFailed(id: Id)
    | VerifyArrived(id: Id, answer: Answer)
    | Finish(id: Id, keyNow: Option<string>, claims: Claims)
    | Lifecycle

  function Put(w: World, id: Id, g: Guard): World {
    w.(guards := w.guards[id := g])
  }

  /** The first local check, up to the first test of the snapshot. */
  function AfterLocal(t: Trust, g: Guard, c: Claims): Guard
    requires g.Fetched?
  {
    if !c.valid || c.verifiedKeyId == None || Rank(c.tier) < Rank(g.required) then Denied
    else if c.jti == None || c.customerId == None || !IsCurrent(t, g.snapshot) then Denied
    else Verifying(g.required, g.key, g.snapshot, c)
  }

  /** The rechecks after both awaits, immediately before dispatch. */
  function AfterRecheck(t: Trust, g: Guard, keyNow: Option<string>, c: Claims): Guard
    requires g.Verified?
  {
    if !IsCurrent(t, g.snapshot) || keyNow != Some(g.key) then Denied
    else if !c.valid || c != g.claims || Rank(c.tier) < Rank(g.required) then Denied
    else Allowed(c.tier)
  }

  function Step(w: World, e: Event): World {
    if e.Lifecycle? then w.(trust := Reset(w.trust))
    else if e.Start? then
      if e.id in w.guards then w
      else if e.key == None then Put(w, e.id, Denied)
      else Put(w.(trust := w.trust.(requested := w.trust.requested + 1)), e.id,
               Fetching(e.required, e.key.value, w.trust.requested + 1))
    else if e.id !in w.guards then w
    else match (e, w.guards[e.id])
      case (TrustFailed(id), Fetching(_, _, request)) => Put(w.(trust := Reject(w.trust, request)), id, Denied)
      case (TrustArrived(id, m), Fetching(required, key, request)) =>
        var t := Accept(w.trust, request, m);
        Put(w.(trust := t), id, if request == w.trust.requested then Fetched(required, key, t.accepted.value)
          else Denied)
      case (CheckLocally(id, c), Fetched(_, _, _)) => Put(w, id, AfterLocal(w.trust, w.guards[id], c))
      case (VerifyFailed(id), Verifying(_, _, _, _)) => Put(w, id, Denied)
      case (VerifyArrived(id, a), Verifying(required, key, s, c)) =>
        Put(w, id, if IsCurrent(w.trust, s) && Registered(a, key, c, s) then Verified(required, key, s, c) else Denied)
      case (Finish(id, keyNow, c), Verified(_, _, _, _)) => Put(w, id, AfterRecheck(w.trust, w.guards[id], keyNow, c))
      case _ => w
  }

  function Run(w: World, es: seq<Event>): World
    decreases es
  {
    if es == [] then w else Run(Step(w, es[0]), es[1..])
  }

  ghost predicate Invariant(t: Trust) {
    t.accepted.Some? ==> t.accepted.value.generation == t.generation
  }

  /** `e` answers the newest request. */
  predicate Newest(w: World, e: Event) {
    && (e.TrustFailed? || e.TrustArrived?)
    && e.id in w.guards && w.guards[e.id].Fetching? && w.guards[e.id].request == w.trust.requested
  }

  /** What ends the trust in a snapshot with this digest. */
  predicate Breaks(w: World, e: Event, digest: string) {
    e.Lifecycle? || (Newest(w, e) && (e.TrustFailed? || e.manifest.digest != digest))
  }

  predicate Unbroken(w: World, es: seq<Event>, digest: string)
    decreases es
  {
    es == [] || (!Breaks(w, es[0], digest) && Unbroken(Step(w, es[0]), es[1..], digest))
  }

  /** A response that a newer request or a reset superseded changes nothing but
      its own call, which is denied. */
  lemma SupersededChangesNothing(w: World, e: Event)
    requires (e.TrustFailed? || e.TrustArrived?) && e.id in w.guards && w.guards[e.id].Fetching? && !Newest(w, e)
    ensures Step(w, e) == w.(guards := w.guards[e.id := Denied])
  {
  }

  lemma StepCurrent(w: World, e: Event, s: Snapshot)
    requires Invariant(w.trust)
    ensures Invariant(Step(w, e).trust) && w.trust.generation <= Step(w, e).trust.generation
    ensures IsCurrent(w.trust, s) ==> (IsCurrent(Step(w, e).trust, s) <==> !Breaks(w, e, s.manifest.digest))
    ensures Breaks(w, e, s.manifest.digest) && IsCurrent(w.trust, s) ==> s.generation < Step(w, e).trust.generation
  {
  }

  lemma {:induction false} OutdatedForever(w: World, es: seq<Event>, s: Snapshot)
    requires Invariant(w.trust) && s.generation < w.trust.generation
    ensures !IsCurrent(Run(w, es).trust, s)
    decreases es
  {
    if es != [] {
      StepCurrent(w, es[0], s);
      OutdatedForever(Step(w, es[0]), es[1..], s);
    }
  }

  /** A snapshot that is current now tests as current later exactly when nothing
      in between rejected the newest request, reset, or accepted another digest. */
  lemma {:induction false} CurrentIffUnbroken(w: World, es: seq<Event>, s: Snapshot)
    requires Invariant(w.trust) && IsCurrent(w.trust, s)
    ensures IsCurrent(Run(w, es).trust, s) <==> Unbroken(w, es, s.manifest.digest)
    decreases es
  {
    if es != [] {
      StepCurrent(w, es[0], s);
      if Breaks(w, es[0], s.manifest.digest) {
        OutdatedForever(Step(w, es[0]), es[1..], s);
      } else {
        CurrentIffUnbroken(Step(w, es[0]), es[1..], s);
      }
    }
  }

  /** The snapshot a fetch returns is current on its return. */
  lemma ReturnedIsCurrent(w: World, e: Event)
    requires e.TrustArrived? && Newest(w, e)
    ensures var w' := Step(w, e);
      w'.guards[e.id].Fetched? && IsCurrent(w'.trust, w'.guards[e.id].snapshot)
      && w'.guards[e.id].snapshot.manifest == e.manifest
  {
  }

  /** A call that has its snapshot, as `w` shows it, and the claims it holds. */
  ghost predicate Holds(g: Guard, required: Tier, key: string, s: Snapshot) {
    match g
    case Fetched(r, k, t) => r == required && k == key && t == s
    case Verifying(r, k, t, c) => r == required && k == key && t == s && Sound(c, required)
    case Verified(r, k, t, c) => r == required && k == key && t == s && Sound(c, required)
      && c.verifiedKeyId.Some? && c.verifiedKeyId.value in s.manifest.keyIds
    case _ => false
  }

  ghost predicate Sound(c: Claims, required: Tier) {
    c.valid && c.jti.Some? && c.customerId.Some? && Rank(c.tier) >= Rank(required)
  }

  /** A paid call that is allowed was allowed by its own last recheck: the token
      it loaded is still the configured one, still verifies with the same claims
      at or above the required tier under a key of the fetched set, and trust is
      unbroken since the call's own fetch. */
  lemma {:induction false} AllowedRestsOnFetch(w: World, es: seq<Event>, id: Id, required: Tier, key: string,
      s: Snapshot)
    returns (k: nat)
    requires Invariant(w.trust) && IsCurrent(w.trust, s)
    requires id in w.guards && Holds(w.guards[id], required, key, s)
    requires id in Run(w, es).guards && Run(w, es).guards[id].Allowed?
    ensures k < |es| && es[k].Finish? && es[k].id == id && es[k].keyNow == Some(key)
    ensures Sound(es[k].claims, required) && es[k].claims.tier == Run(w, es).guards[id].tier
    ensures es[k].claims.verifiedKeyId.Some? && es[k].claims.verifiedKeyId.value in s.manifest.keyIds
    ensures Unbroken(w, es[..k], s.manifest.digest)
    decreases es
  {
    k := 0;
    var e, w' := es[0], Step(w, es[0]);
    StepCurrent(w, e, s);
    if w'.guards[id].Allowed? || w'.guards[id].Denied? {
      SettledForever(w', es[1..], id);
    } else if Breaks(w, e, s.manifest.digest) {
      NeverAllowed(w', es[1..], id, required, key, s);
    } else {
      k := AllowedRestsOnFetch(w', es[1..], id, required, key, s);
      k := k + 1;
      assert es[..k][1..] == es[1..][..k - 1];
    }
  }

  lemma {:induction false} SettledForever(w: World, es: seq<Event>, id: Id)
    requires id in w.guards && (w.guards[id].Allowed? || w.guards[id].Denied?)
    ensures id in Run(w, es).guards && Run(w, es).guards[id] == w.guards[id]
    decreases es
  {
    if es != [] { SettledForever(Step(w, es[0]), es[1..], id); }
  }

  lemma {:induction false} NeverAllowed(w: World, es: seq<Event>, id: Id, required: Tier, key: string, s: Snapshot)
    requires Invariant(w.trust) && s.generation < w.trust.generation
    requires id in w.guards && (Holds(w.guards[id], required, key, s) || w.guards[id].Denied?)
    ensures id in Run(w, es).guards && !Run(w, es).guards[id].Allowed?
    decreases es
  {
    if es != [] {
      StepCurrent(w, es[0], s);
      NeverAllowed(Step(w, es[0]), es[1..], id, required, key, s);
    }
  }

  /** A call without a licence key is denied at once; any other asks for the trust
      set with the next request number. */
  lemma StartAsks(w: World, id: Id, required: Tier, key: Option<string>)
    requires id !in w.guards
    ensures Step(w, Start(id, required, key)) ==
      if key == None then World(w.trust, w.guards[id := Denied])
      else World(Trust(w.trust.requested + 1, w.trust.generation, w.trust.accepted),
                 w.guards[id := Fetching(required, key.value, w.trust.requested + 1)])
  {
  }

  /** The newest request, when it fails, withdraws the accepted set and denies its call. */
  lemma FailedWithdraws(w: World, e: Event)
    requires e.TrustFailed? && Newest(w, e)
    ensures Step(w, e) == World(Trust(w.trust.requested, w.trust.generation + 1, None), w.guards[e.id := Denied])
  {
  }

  /** The newest answer is accepted, under a new generation if its digest is new, and
      its call goes on with it. */
  lemma ArrivedStores(w: World, e: Event)
    requires e.TrustArrived? && Newest(w, e)
    ensures var g, t := w.guards[e.id], w.trust;
      var known := t.accepted.Some? && t.accepted.value.manifest.digest == e.manifest.digest;
      var s := Snapshot(e.manifest, if known then t.generation else t.generation + 1);
      Step(w, e) == World(Trust(t.requested, s.generation, Some(s)), w.guards[e.id := Fetched(g.required, g.key, s)])
  {
  }

  /** A lifecycle reset withdraws the set and supersedes every request on its way. */
  lemma ResetSupersedes(w: World)
    ensures Step(w, Lifecycle) == World(Trust(w.trust.requested + 1, w.trust.generation + 1, None), w.guards)
  {
  }

  // ----- the registry's answer -----

  /** The tiers in order: free, pro, max, enterprise. */
  predicate Covers(tier: Tier, required: Tier) {
    match required
    case Free => true
    case Pro => tier != Free
    case Max => tier == Max || tier == Enterprise
    case Enterprise => tier == Enterprise
  }

  lemma RankCovers(tier: Tier, required: Tier)
    ensures Rank(tier) >= Rank(required) <==> Covers(tier, required)
  {
  }

  /** The registry says valid, if need be with expired support, about the key with this
      digest, for the tier and the customer of the claims, under the fetched trust set
      and the key that verified them, which is in it. */
  ghost predicate Confirms(a: Answer, key: string, c: Claims, s: Snapshot) {
    && a.valid && a.reason in {"valid", "support_expired"}
    && a.keyDigest == key && a.tier == c.tier && c.customerId == Some(a.customerId)
    && c.verifiedKeyId == Some(a.verifiedKeyId) && a.trustDigest == s.manifest.digest
    && a.verifiedKeyId in s.manifest.keyIds
  }

  /** A call past the registry, and the answer it had: `j` is where it arrived. */
  ghost predicate Answered(w: World, es: seq<Event>, j: nat, id: Id, key: string, s: Snapshot, c: Claims) {
    && j < |es| && es[j].VerifyArrived? && es[j].id == id
    && Confirms(es[j].answer, key, c, s) && IsCurrent(Run(w, es[..j]).trust, s)
  }

  lemma {:induction false} AnsweredLater(w: World, e: Event, es: seq<Event>, j: nat, id: Id, key: string,
      s: Snapshot, c: Claims)
    requires Answered(Step(w, e), es, j, id, key, s, c)
    ensures Answered(w, [e] + es, j + 1, id, key, s, c)
  {
    assert ([e] + es)[..j + 1][1..] == es[..j];
  }

  /** A call that was verified and is allowed in the end had the same claims then. */
  lemma {:induction false} VerifiedClaims(w: World, es: seq<Event>, id: Id)
    returns (k: nat)
    requires id in w.guards && w.guards[id].Verified?
    requires id in Run(w, es).guards && Run(w, es).guards[id].Allowed?
    ensures k < |es| && es[k].Finish? && es[k].id == id
    ensures es[k].claims == w.guards[id].claims && es[k].keyNow == Some(w.guards[id].key)
    ensures Run(w, es).guards[id] == Allowed(w.guards[id].claims.tier)
    decreases es
  {
    k := 0;
    var e, w' := es[0], Step(w, es[0]);
    if w'.guards[id].Allowed? || w'.guards[id].Denied? {
      SettledForever(w', es[1..], id);
    } else {
      k := VerifiedClaims(w', es[1..], id);
      k := k + 1;
    }
  }

  /** Over every run: a paid call that is allowed had, before its last recheck, its
      own answer from the registry, which confirmed the token the call loaded with
      the claims of that recheck, while the fetched set was current. */
  lemma {:induction false} AllowedWasConfirmed(w: World, es: seq<Event>, id: Id)
    returns (j: nat, k: nat)
    requires id in w.guards && (w.guards[id].Fetched? || w.guards[id].Verifying?)
    requires id in Run(w, es).guards && Run(w, es).guards[id].Allowed?
    ensures j < k < |es| && es[k].Finish? && es[k].id == id && es[k].keyNow == Some(w.guards[id].key)
    ensures Answered(w, es, j, id, w.guards[id].key, w.guards[id].snapshot, es[k].claims)
    ensures Run(w, es).guards[id] == Allowed(es[k].claims.tier)
    decreases es
  {
    j, k := 0, 0;
    var e, w' := es[0], Step(w, es[0]);
    assert es == [e] + es[1..];
    if w'.guards[id].Denied? {
      SettledForever(w', es[1..], id);
    } else if w'.guards[id].Verified? {
      k := VerifiedClaims(w', es[1..], id);
      k := k + 1;
      assert es[..0] == [];
    } else {
      j, k := AllowedWasConfirmed(w', es[1..], id);
      AnsweredLater(w, e, es[1..], j, id, w.guards[id].key, w.guards[id].snapshot, es[1..][k].claims);
      j, k := j + 1, k + 1;
    }
  }

  predicate Concerns(e: Event, id: Id) {
    !e.Lifecycle? && e.id == id
  }

  lemma {:induction false} Untouched(w: World, es: seq<Event>, id: Id)
    requires id in w.guards && forall e :: e in es ==> !Concerns(e, id)
    ensures id in Run(w, es).guards && Run(w, es).guards[id] == w.guards[id]
    decreases es
  {
    if es != [] {
      assert !Concerns(es[0], id);
      Untouched(Step(w, es[0]), es[1..], id);
    }
  }

  lemma {:induction false} RunThen(w: World, a: seq<Event>, b: seq<Event>)
    ensures Run(w, a + b) == Run(Run(w, a), b)
    decreases a
  {
    if a == [] {
      assert a + b == b;
    } else {
      assert (a + b)[0] == a[0] && (a + b)[1..] == a[1..] + b;
      RunThen(Step(w, a[0]), a[1..], b);
    }
  }

  /** The claims of a call are good for its required tier. */
  ghost predicate Good(c: Claims, required: Tier) {
    c.valid && c.verifiedKeyId.Some? && c.jti.Some? && c.customerId.Some? && Covers(c.tier, required)
  }

  /** The first local check: a call with good claims and a current set goes on to the
      registry, and any other is denied. */
  lemma CheckStores(w: World, id: Id, c: Claims)
    requires id in w.guards && w.guards[id].Fetched?
    ensures var g := w.guards[id];
      Step(w, CheckLocally(id, c)) == World(w.trust, w.guards[id :=
        if Good(c, g.required) && IsCurrent(w.trust, g.snapshot)
        then Verifying(g.required, g.key, g.snapshot, c) else Denied])
  {
    RankCovers(c.tier, w.guards[id].required);
  }

  /** The steps of a call from its fetched snapshot on, with those of others between. */
  function CallSteps(id: Id, a: seq<Event>, c: Claims, b: seq<Event>, answer: Answer, d: seq<Event>): seq<Event> {
    a + [CheckLocally(id, c)] + b + [VerifyArrived(id, answer)] + d
  }

  /** Whatever other calls and resets come between: the call is allowed if and only
      if its claims are good, the registry confirms them, they and the configured
      token are the same at the end, and the trust in its snapshot was never broken. */
  lemma AllowedIff(w: World, id: Id, a: seq<Event>, c: Claims, b: seq<Event>, answer: Answer, d: seq<Event>,
      keyNow: Option<string>, again: Claims)
    requires Invariant(w.trust) && id in w.guards && w.guards[id].Fetched? && IsCurrent(w.trust, w.guards[id].snapshot)
    requires forall e :: e in a + b + d ==> !Concerns(e, id)
    ensures var g, es := w.guards[id], CallSteps(id, a, c, b, answer, d);
      var u := Step(Run(w, es), Finish(id, keyNow, again));
      && id in u.guards
      && (u.guards[id].Allowed? <==>
          && Good(c, g.required) && Confirms(answer, g.key, c, g.snapshot)
          && again == c && keyNow == Some(g.key) && Unbroken(w, es, g.snapshot.manifest.digest))
      && (u.guards[id].Allowed? ==> u.guards[id] == Allowed(c.tier))
  {
    hide Run, CallSteps, Unbroken;
    var g, es := w.guards[id], CallSteps(id, a, c, b, answer, d);
    var w1 := Run(w, a);
    var w2 := Step(w1, CheckLocally(id, c));
    var w3 := Run(w2, b);
    var w4 := Step(w3, VerifyArrived(id, answer));
    var w5 := Run(w4, d);
    CallStates(w, id, a, c, b, answer, d);
    Untouched(w, a, id);
    Untouched(w2, b, id);
    Untouched(w4, d, id);
    RankCovers(c.tier, g.required);
    CurrentAtEach(w, id, a, c, b, answer, d, g.snapshot);
  }

  lemma CallStates(w: World, id: Id, a: seq<Event>, c: Claims, b: seq<Event>, answer: Answer, d: seq<Event>)
    ensures var w2 := Step(Run(w, a), CheckLocally(id, c));
      var w4 := Step(Run(w2, b), VerifyArrived(id, answer));
      Run(w, CallSteps(id, a, c, b, answer, d)) == Run(w4, d)
  {
    var e, f := [CheckLocally(id, c)], [VerifyArrived(id, answer)];
    RunThen(w, a + e + b + f, d);
    RunThen(w, a + e + b, f);
    RunThen(w, a + e, b);
    RunThen(w, a, e);
    var w1, w3 := Run(w, a), Run(w, a + e + b);
    assert Run(w1, e) == Run(Step(w1, e[0]), e[1..]) && Run(w3, f) == Run(Step(w3, f[0]), f[1..]);
  }

  /** Trust unbroken to the end means that the snapshot was current at each check. */
  lemma CurrentAtEach(w: World, id: Id, a: seq<Event>, c: Claims, b: seq<Event>, answer: Answer, d: seq<Event>,
      s: Snapshot)
    requires Invariant(w.trust) && IsCurrent(w.trust, s)
    ensures var w1 := Run(w, a);
      var w3 := Run(Step(w1, CheckLocally(id, c)), b);
      var w5 := Run(Step(w3, VerifyArrived(id, answer)), d);
      && (IsCurrent(w5.trust, s) <==> Unbroken(w, CallSteps(id, a, c, b, answer, d), s.manifest.digest))
      && (IsCurrent(w5.trust, s) ==> IsCurrent(w1.trust, s) && IsCurrent(w3.trust, s))
  {
    var w1 := Run(w, a);
    var w2 := Step(w1, CheckLocally(id, c));
    var w3 := Run(w2, b);
    var w4 := Step(w3, VerifyArrived(id, answer));
    CallStates(w, id, a, c, b, answer, d);
    CurrentIffUnbroken(w, CallSteps(id, a, c, b, answer, d), s);
    CurrentOrOutdated(w, a, s);
    CurrentOrOutdated(w2, b, s);
    CurrentOrOutdated(w4, d, s);
  }

  /** Once a snapshot is not current it is outdated, and stays so. */
  lemma {:induction false} CurrentOrOutdated(w: World, es: seq<Event>, s: Snapshot)
    requires Invariant(w.trust) && (IsCurrent(w.trust, s) || s.generation < w.trust.generation)
    ensures Invariant(Run(w, es).trust)
    ensures IsCurrent(Run(w, es).trust, s) || s.generation < Run(w, es).trust.generation
    ensures IsCurrent(Run(w, es).trust, s) ==> IsCurrent(w.trust, s)
    decreases es
  {
    if es != [] {
      StepCurrent(w, es[0], s);
      CurrentOrOutdated(Step(w, es[0]), es[1..], s);
    }
  }
}
