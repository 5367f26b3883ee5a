/** The persistent denylist of revoked token ids: any number of processes run
    `revokeJti` and `isRevokedJti` against one store file and its lock file. A
    step is one file operation, it may fail where the operation can throw, and
    a process may crash between any two of them. */
module RevokedJtis {
  import opened Sequences
  import opened Utf16

  // ----- tokens -----

  lemma TrimIdempotent(t: Text)
    ensures Trim(Trim(t)) == Trim(t)
  {
  }

  // ----- the store file -----

  /** `Broken` stands for a file that cannot be read or is not a denylist. */
  datatype Store = Absent | Broken | Listing(jtis: seq<Text>)

  datatype Loaded = Denylist(jtis: seq<Text>) | RevocationStateError

  predicate ValidEntry(t: Text) {
    t != [] && t == Trim(t)
  }

  function Load(store: Store): Loaded {
    match store
    case Absent => Denylist([])
    case Broken => RevocationStateError
    case Listing(jtis) =>
      if forall i :: 0 <= i < |jtis| ==> ValidEntry(jtis[i]) then Denylist(jtis) else RevocationStateError
  }

  /** `[...new Set(jtis)]`: the first occurrence of each entry. */
  function Dedupe(jtis: seq<Text>): (r: seq<Text>)
    ensures forall t :: t in r <==> t in jtis
  {
    if jtis == [] then []
    else
      var r := Dedupe(jtis[..|jtis| - 1]);
      var last := jtis[|jtis| - 1];
      assert jtis == jtis[..|jtis| - 1] + [last];
      if last in r then r else r + [last]
  }

  /** The list a revocation pushes. */
  function With(jtis: seq<Text>, token: Text): seq<Text> {
    if token in jtis then jtis else jtis + [token]
  }

  // ----- processes -----

  type Pid = nat

  datatype Process =
    | Idle
    // revokeJti: after taking the lock, after load and push, after the temporary
    // file is complete, after rename, and on the way out with an exception
    | Locked(token: Text)
    | Pushed(token: Text, list: seq<Text>)
    | Written(token: Text, list: seq<Text>)
    | Renamed(token: Text)
    | Failing
    | Revoked(token: Text)
    // isRevokedJti: after the lock file was seen absent, and its answer
    | Unlocked(token: Text)
    | Answered(token: Text, answer: bool)
    | Threw
    | Crashed

  /** `lock` names the process that created the lock file, while it exists. */
  datatype State = State(store: Store, lock: Lock, processes: map<Pid, Process>)
  datatype Lock = Free | HeldBy(pid: Pid)

  datatype Event =
    | BeginRevoke(pid: Pid, jti: Text, ok: bool)
    | LoadStore(pid: Pid)
    | WriteTemporary(pid: Pid, ok: bool)
    | RenameTemporary(pid: Pid, ok: bool)
    | Release(pid: Pid, removed: bool, unlinked: bool)
    | BeginCheck(pid: Pid, jti: Text, ok: bool)
    | Crash(pid: Pid)

  function Of(s: State, p: Pid): Process {
    if p in s.processes then s.processes[p] else Idle
  }

  function Now(s: State, p: Pid, c: Process): State {
    s.(processes := s.processes[p := c])
  }

  /** One step. An event whose process is elsewhere does nothing. */
  function Step(s: State, e: Event): State {
    match (e, Of(s, e.pid))
    case (BeginRevoke(p, jti, ok), Idle) =>
      var token := Trim(jti);
      if token == [] then Now(s, p, Revoked(token))
      else if s.lock != Free || !ok then Now(s, p, Threw)
      else Now(s, p, Locked(token)).(lock := HeldBy(p))
    case (LoadStore(p), Locked(token)) =>
      (match Load(s.store)
       case RevocationStateError => Now(s, p, Failing)
       case Denylist(jtis) => Now(s, p, Pushed(token, With(jtis, token))))
    case (WriteTemporary(p, ok), Pushed(token, list)) =>
      Now(s, p, if ok then Written(token, Dedupe(list)) else Failing)
    case (RenameTemporary(p, ok), Written(token, list)) =>
      if ok then Now(s, p, Renamed(token)).(store := Listing(list)) else Now(s, p, Failing)
    case (Release(p, removed, unlinked), Renamed(token)) =>
      var out := Now(s, p, if removed && unlinked then Revoked(token) else Threw);
      if unlinked then out.(lock := Free) else out
    case (Release(p, _, unlinked), Failing) =>
      var out := Now(s, p, Threw);
      if unlinked then out.(lock := Free) else out
    case (BeginCheck(p, jti, ok), Idle) =>
      if s.lock != Free || !ok then Now(s, p, Threw) else Now(s, p, Unlocked(Trim(jti)))
    case (LoadStore(p), Unlocked(token)) =>
      (match Load(s.store)
       case RevocationStateError => Now(s, p, Threw)
       case Denylist(jtis) => Now(s, p, Answered(token, token != [] && token in jtis)))
    case (Crash(p), c) =>
      if c.Revoked? || c.Answered? || c.Threw? then s else Now(s, p, Crashed)
    case _ => s
  }

  function Run(s: State, es: seq<Event>): State
    decreases es
  {
    if es == [] then s else Run(Step(s, es[0]), es[1..])
  }

  // ----- invariants -----

  /** The set that `isRevokedJti` consults. */
  function Entries(store: Store): set<Text> {
    match Load(store)
    case Denylist(jtis) => set t | t in jtis
    case RevocationStateError => {}
  }

  predicate InSection(c: Process) {
    c.Locked? || c.Pushed? || c.Written? || c.Renamed? || c.Failing?
  }

  ghost predicate Consistent(s: State, p: Pid) {
    var c := Of(s, p);
    && (InSection(c) ==> s.lock == HeldBy(p))
    && (c.Locked? || c.Pushed? || c.Written? ==> ValidEntry(c.token))
    && (c.Pushed? || c.Written? ==>
        Load(s.store).Denylist? && forall t :: t in c.list <==> t in Entries(s.store) || t == c.token)
    && (c.Renamed? ==> c.token in Entries(s.store))
    && (c.Revoked? ==> c.token == [] || c.token in Entries(s.store))
    && (c.Answered? && c.answer ==> c.token in Entries(s.store))
  }

  ghost predicate Invariant(s: State) {
    forall p {:trigger Consistent(s, p)} :: Consistent(s, p)
  }

  lemma InitialInvariant(store: Store)
    ensures Invariant(State(store, Free, map[]))
  {
  }

  lemma EntriesAreValid(store: Store)
    ensures forall t :: t in Entries(store) ==> ValidEntry(t)
  {
  }

  /** The only step that touches the store adds the lock holder's own token. */
  lemma StepEntries(s: State, e: Event)
    requires Invariant(s)
    ensures Entries(Step(s, e).store) == Entries(s.store) +
      (if e.RenameTemporary? && e.ok && Of(s, e.pid).Written? then {Of(s, e.pid).token} else {})
    ensures Load(s.store).Denylist? ==> Load(Step(s, e).store).Denylist?
  {
    assert Consistent(s, e.pid);
    EntriesAreValid(s.store);
    if e.RenameTemporary? && e.ok && Of(s, e.pid).Written? {
      var c := Of(s, e.pid);
      forall i | 0 <= i < |c.list| ensures ValidEntry(c.list[i]) { assert c.list[i] in c.list; }
      assert Load(Listing(c.list)) == Denylist(c.list);
    }
  }

  /** A step moves only its own process, and the lock only from or to it. */
  lemma StepFrame(s: State, e: Event, p: Pid)
    requires p != e.pid
    ensures Of(Step(s, e), p) == Of(s, p)
    ensures Step(s, e).lock == s.lock || s.lock == Free || InSection(Of(s, e.pid))
    ensures Step(s, e).store == s.store || Of(s, e.pid).Written?
  {
  }

  lemma StepOthers(s: State, e: Event, p: Pid)
    requires p != e.pid && Invariant(s)
    ensures Consistent(Step(s, e), p)
  {
    assert Consistent(s, p) && Consistent(s, e.pid);
    StepEntries(s, e);
    StepFrame(s, e, p);
  }

  lemma StepSelf(s: State, e: Event)
    requires Invariant(s)
    ensures Consistent(Step(s, e), e.pid)
  {
    assert Consistent(s, e.pid);
    StepEntries(s, e);
    EntriesAreValid(s.store);
    if e.BeginRevoke? { TrimIdempotent(e.jti); }
  }

  lemma StepInvariant(s: State, e: Event)
    requires Invariant(s)
    ensures Invariant(Step(s, e))
  {
    forall p {:trigger Consistent(Step(s, e), p)} ensures Consistent(Step(s, e), p) {
      if p == e.pid { StepSelf(s, e); } else { StepOthers(s, e, p); }
    }
  }

  lemma {:induction false} RunInvariant(s: State, es: seq<Event>)
    requires Invariant(s)
    ensures Invariant(Run(s, es))
    ensures Entries(s.store) <= Entries(Run(s, es).store)
    ensures Load(s.store).Denylist? ==> Load(Run(s, es).store).Denylist?
    decreases es
  {
    if es != [] {
      StepEntries(s, es[0]);
      StepInvariant(s, es[0]);
      RunInvariant(Step(s, es[0]), es[1..]);
    }
  }

  // ----- what holds over every run -----

  lemma {:induction false} AnswersAfter(s: State, es: seq<Event>, q: Pid, t: Text)
    requires Invariant(s) && (t == [] || t in Entries(s.store))
    requires Of(s, q).Answered? && Of(s, q).token == t ==> (Of(s, q).answer <==> t != [])
    ensures var c := Of(Run(s, es), q); c.Answered? && c.token == t ==> (c.answer <==> t != [])
    decreases es
  {
    if es != [] {
      StepEntries(s, es[0]);
      StepInvariant(s, es[0]);
      AnswersAfter(Step(s, es[0]), es[1..], q, t);
    }
  }

  /** Once `revokeJti` has returned, a check of the same token that had not read
      the store yet answers yes or throws, whatever else runs or crashes; for a
      blank token, which `revokeJti` ignores, it answers no. */
  lemma CheckAfterRevoke(s: State, es: seq<Event>, p: Pid, q: Pid)
    requires Invariant(s) && Of(s, p).Revoked? && !Of(s, q).Answered?
    ensures var t, c := Of(s, p).token, Of(Run(s, es), q);
      c.Answered? && c.token == t ==> (c.answer <==> t != [])
  {
    assert Consistent(s, p);
    AnswersAfter(s, es, q, Of(s, p).token);
  }

  /** No addition is lost: a token whose writer got past its rename is in the
      store for good, even if that writer crashed before it returned. */
  lemma RenamedForGood(s: State, es: seq<Event>, p: Pid)
    requires Invariant(s) && Of(s, p).Renamed?
    ensures Of(s, p).token in Entries(Run(s, es).store)
  {
    assert Consistent(s, p);
    RunInvariant(s, es);
  }

  /** A writer that crashed while it held the lock leaves the store as it is and
      closed: no later check answers and no later revocation is made. */
  lemma {:induction false} InterruptedFailsClosed(s: State, es: seq<Event>, p: Pid, q: Pid)
    requires Invariant(s) && Of(s, p) == Crashed && s.lock == HeldBy(p)
    requires Of(s, q) in {Idle, Threw, Crashed, Revoked([])}
    ensures Of(Run(s, es), q) in {Idle, Threw, Crashed, Revoked([])}
    ensures Run(s, es).store == s.store && Run(s, es).lock == HeldBy(p)
    decreases es
  {
    if es != [] {
      StepInvariant(s, es[0]);
      assert Consistent(s, es[0].pid);
      InterruptedFailsClosed(Step(s, es[0]), es[1..], p, q);
    }
  }

  /** The undisturbed run of `revokeJti`. */
  function Revoke(s: State, p: Pid, jti: Text): State {
    Save(Step(Step(s, BeginRevoke(p, jti, true)), LoadStore(p)), p)
  }

  function Save(s: State, p: Pid): State {
    Step(Step(Step(s, WriteTemporary(p, true)), RenameTemporary(p, true)), Release(p, true, true))
  }

  lemma LockAndLoad(s: State, p: Pid, jti: Text)
    requires Of(s, p) == Idle && s.lock == Free && Load(s.store).Denylist? && Trim(jti) != []
    ensures var loaded := Step(Step(s, BeginRevoke(p, jti, true)), LoadStore(p));
      var token, jtis := Trim(jti), Load(s.store).jtis;
      loaded.lock == HeldBy(p) && Of(loaded, p) == Pushed(token, With(jtis, token))
  {
    assert Of(Step(s, BeginRevoke(p, jti, true)), p) == Locked(Trim(jti));
  }

  lemma SaveStores(s: State, p: Pid)
    requires Of(s, p).Pushed? && s.lock == HeldBy(p)
    ensures var r := Save(s, p);
      Of(r, p) == Revoked(Of(s, p).token) && r.lock == Free && r.store == Listing(Dedupe(Of(s, p).list))
  {
    var written := Step(s, WriteTemporary(p, true));
    assert Of(written, p) == Written(Of(s, p).token, Dedupe(Of(s, p).list));
    assert Of(Step(written, RenameTemporary(p, true)), p) == Renamed(Of(s, p).token);
  }

  lemma SavedEntries(store: Store, token: Text)
    requires Load(store).Denylist? && ValidEntry(token)
    ensures Entries(Listing(Dedupe(With(Load(store).jtis, token)))) == Entries(store) + {token}
  {
    EntriesAreValid(store);
    var list := With(Load(store).jtis, token);
    var r := Dedupe(list);
    forall t ensures t in list <==> t in Entries(store) || t == token {}
    forall i | 0 <= i < |r| ensures ValidEntry(r[i]) { assert r[i] in r; }
    assert Load(Listing(r)) == Denylist(r);
  }

  /** Alone with a readable store it adds its token and reopens the store. */
  lemma RevokeAlone(s: State, p: Pid, jti: Text)
    requires Of(s, p) == Idle && s.lock == Free && Load(s.store).Denylist? && Trim(jti) != []
    ensures var r := Revoke(s, p, jti);
      Of(r, p) == Revoked(Trim(jti)) && r.lock == Free && Entries(r.store) == Entries(s.store) + {Trim(jti)}
  {
    TrimIdempotent(jti);
    LockAndLoad(s, p, jti);
    SavedEntries(s.store, Trim(jti));
    SaveStores(Step(Step(s, BeginRevoke(p, jti, true)), LoadStore(p)), p);
  }

  // ----- what each operation does -----

  /** A revocation is about the trimmed id: a blank one is done at once, and any other
      takes the lock file, which fails while it exists. */
  lemma RevokeBegins(s: State, p: Pid, jti: Text, ok: bool)
    requires Of(s, p) == Idle
    ensures var t := Step(s, BeginRevoke(p, jti, ok));
      && t.store == s.store
      && if Trim(jti) == [] then Of(t, p) == Revoked([]) && t.lock == s.lock
         else if s.lock == Free && ok then Of(t, p) == Locked(Trim(jti)) && t.lock == HeldBy(p)
         else Of(t, p) == Threw && t.lock == s.lock
  {
  }

  /** A check is about the trimmed id too, and throws while the lock file exists. */
  lemma CheckBegins(s: State, p: Pid, jti: Text, ok: bool)
    requires Of(s, p) == Idle
    ensures var t := Step(s, BeginCheck(p, jti, ok));
      && t.store == s.store && t.lock == s.lock
      && Of(t, p) == if s.lock == Free && ok then Unlocked(Trim(jti)) else Threw
  {
  }

  /** It answers whether the id is in the store as it reads it, never for a blank id,
      and throws on a store that it cannot read or that holds anything but trimmed ids. */
  lemma CheckAnswers(s: State, p: Pid)
    requires Of(s, p).Unlocked?
    ensures var token, t := Of(s, p).token, Step(s, LoadStore(p));
      && t.store == s.store && t.lock == s.lock
      && match s.store
         case Absent => Of(t, p) == Answered(token, false)
         case Broken => Of(t, p) == Threw
         case Listing(jtis) =>
           Of(t, p) == if exists i :: 0 <= i < |jtis| && (jtis[i] == [] || jtis[i] != Trim(jtis[i])) then Threw
                       else Answered(token, token != [] && token in jtis)
  {
  }

  /** The lock file goes when its holder can remove it, and not otherwise; a revocation
      returns only if that and the removal of the temporary file went well. */
  lemma ReleaseFrees(s: State, p: Pid, removed: bool, unlinked: bool)
    requires Of(s, p).Renamed? || Of(s, p).Failing?
    ensures var c, t := Of(s, p), Step(s, Release(p, removed, unlinked));
      && t.store == s.store && t.lock == (if unlinked then Free else s.lock)
      && Of(t, p) == if c.Renamed? && removed && unlinked then Revoked(c.token) else Threw
  {
  }

  /** Every other step of a revocation leaves the lock alone, and one that fails leads
      to its way out; a crash at any point leaves lock and store as they are. */
  lemma FailuresKeep(s: State, p: Pid)
    ensures Of(s, p).Locked? && Load(s.store).RevocationStateError? ==>
      Step(s, LoadStore(p)) == s.(processes := s.processes[p := Failing])
    ensures Of(s, p).Pushed? ==> Step(s, WriteTemporary(p, false)) == s.(processes := s.processes[p := Failing])
    ensures Of(s, p).Written? ==> Step(s, RenameTemporary(p, false)) == s.(processes := s.processes[p := Failing])
    ensures InSection(Of(s, p)) || Of(s, p).Unlocked? ==>
      Step(s, Crash(p)) == s.(processes := s.processes[p := Crashed])
  {
  }

  /** Over every run: revoked under one spelling of the white space around it, an id is
      revoked under all. */
  lemma RevokedAnySpelling(s: State, es: seq<Event>, p: Pid, q: Pid, jti: Text, other: Text)
    requires Invariant(s) && Of(s, p) == Revoked(Trim(jti)) && Of(s, q) == Idle
    requires Trim(jti) == Trim(other) != []
    ensures var c := Of(Run(Step(s, BeginCheck(q, other, true)), es), q);
      c.Answered? && c.token == Trim(other) ==> c.answer
  {
    var t := Step(s, BeginCheck(q, other, true));
    StepInvariant(s, BeginCheck(q, other, true));
    StepFrame(s, BeginCheck(q, other, true), p);
    CheckAfterRevoke(t, es, p, q);
  }

  /** The list that is written holds each id once, in the order of first occurrences. */
  lemma {:induction false} DedupeOnce(jtis: seq<Text>)
    ensures Distinct(Dedupe(jtis))
    ensures Distinct(jtis) ==> Dedupe(jtis) == jtis
  {
    if jtis != [] {
      var init, last := jtis[..|jtis| - 1], jtis[|jtis| - 1];
      DedupeOnce(init);
      assert jtis == init + [last];
      if Distinct(jtis) {
        forall i | 0 <= i < |init| ensures init[i] != last { assert jtis[i] == init[i]; }
      }
    }
  }

  /** A revocation that loads a list of distinct ids writes this list, with its own id at
      the end if it was not in it. */
  lemma WritesInOrder(s: State, p: Pid)
    requires Of(s, p).Locked? && Load(s.store).Denylist? && Distinct(Load(s.store).jtis)
    ensures var token, jtis := Of(s, p).token, Load(s.store).jtis;
      var t := Step(Step(s, LoadStore(p)), WriteTemporary(p, true));
      && t.store == s.store && Of(t, p) == Written(token, if token in jtis then jtis else jtis + [token])
      && Distinct(Of(t, p).list)
  {
    var token, jtis := Of(s, p).token, Load(s.store).jtis;
    var list := if token in jtis then jtis else jtis + [token];
    assert Step(s, LoadStore(p)) == Now(s, p, Pushed(token, list));
    DedupeOnce(list);
  }

  /** The rename puts the written list in the place of the store. */
  lemma RenameStores(s: State, p: Pid)
    requires Of(s, p).Written?
    ensures var t := Step(s, RenameTemporary(p, true));
      t.store == Listing(Of(s, p).list) && t.lock == s.lock && Of(t, p) == Renamed(Of(s, p).token)
  {
  }

  /** What an operation answered stays its answer. */
  lemma {:induction false} AnsweredForever(s: State, es: seq<Event>, p: Pid)
    requires var c := Of(s, p); c.Revoked? || c.Answered? || c.Threw? || c.Crashed?
    ensures Of(Run(s, es), p) == Of(s, p)
    decreases es
  {
    if es != [] { AnsweredForever(Step(s, es[0]), es[1..], p); }
  }
}
