/** `agent.spawn` confinement: the guard on granted roots and the bubblewrap
    argument vector, read as the ordered mounts it asks for. */
module Confinement {
  import opened Options
  import opened Paths
  import opened Sequences

  const NEVER_BOUND_HOME_RELATIVE: seq<Path> := [
    [".ssh"], [".age-identity"], [".revealui", "passage-store"], [".config", "gh"],
    [".npmrc"], [".aws"], [".docker", "config.json"], [".claude"]]
  const NEVER_BOUND_ABSOLUTE: seq<Path> := [["mnt", "c"], ["mnt", "e"]]
  const ETC_RO_BINDS: seq<Path> := [
    ["etc", "resolv.conf"], ["etc", "ssl"], ["etc", "ca-certificates"], ["etc", "passwd"],
    ["etc", "group"], ["etc", "nsswitch.conf"], ["etc", "alternatives"]]
  const CACHES_HOME_RELATIVE: seq<Path> := [
    [".local", "share", "pnpm", "store"], [".cargo", "registry"], [".cargo", "git"]]

  /** The host file system as the guard and the builder consult it. */
  datatype Host = Host(exists_: Path -> bool, realpath: Path -> Option<Path>, uid: Option<Segment>)

  datatype Opts = Opts(repoReal: Path, cwd: Path, agentHome: Path, operatorHome: Path, dataDir: Path)

  function Under(home: Path, rels: seq<Path>): (ps: seq<Path>)
    ensures |ps| == |rels| && forall i :: 0 <= i < |rels| ==> ps[i] == home + rels[i]
  {
    seq(|rels|, i requires 0 <= i < |rels| => home + rels[i])
  }

  function LexicalNeverBound(host: Host, operatorHome: Path, dataDir: Path): seq<Path> {
    Under(operatorHome, NEVER_BOUND_HOME_RELATIVE) + NEVER_BOUND_ABSOLUTE + [dataDir]
    + match host.uid case None => [] case Some(uid) => [["run", "user", uid]]
  }

  /** Both forms of every entry: lexical, and real when it exists. */
  ghost predicate IsNeverBound(host: Host, operatorHome: Path, dataDir: Path, p: Path) {
    var lexical := LexicalNeverBound(host, operatorHome, dataDir);
    p in lexical || exists q :: q in lexical && host.realpath(q) == Some(p)
  }

  method NeverBoundSet(host: Host, operatorHome: Path, dataDir: Path) returns (list: seq<Path>)
    ensures forall p :: p in list <==> IsNeverBound(host, operatorHome, dataDir, p)
  {
    var lexical := LexicalNeverBound(host, operatorHome, dataDir);
    list := lexical;
    for i := 0 to |lexical|
      invariant forall p :: p in list <==> p in lexical || exists q :: q in lexical[..i] && host.realpath(q) == Some(p)
    {
      var resolved := host.realpath(lexical[i]);
      if resolved.Some? && resolved.value !in list { list := list + [resolved.value]; }
      assert lexical[..i + 1] == lexical[..i] + [lexical[i]];
    }
    assert lexical[..|lexical|] == lexical;
  }

  predicate Overlap(a: Path, b: Path) {
    Within(a, b) || Within(b, a)
  }

  ghost predicate FirstOverlap(candidate: Path, neverBound: seq<Path>, i: nat) {
    i < |neverBound| && Overlap(candidate, neverBound[i]) && NoOverlap(candidate, neverBound[..i])
  }

  ghost predicate NoOverlap(candidate: Path, ps: seq<Path>) {
    forall p :: p in ps ==> !Overlap(candidate, p)
  }

  lemma NoOverlapYet(candidate: Path, ps: seq<Path>, p: Path)
    ensures NoOverlap(candidate, ps + [p]) <==> NoOverlap(candidate, ps) && !Overlap(candidate, p)
  {
    assert p in ps + [p];
    assert forall q :: q in ps ==> q in ps + [p];
  }

  /** The first entry that contains, is, or lies inside `candidate`. */
  method FindNeverBoundOverlap(candidate: Path, neverBound: seq<Path>) returns (hit: Option<Path>)
    ensures hit.None? ==> NoOverlap(candidate, neverBound)
    ensures hit.Some? ==> exists i: nat :: FirstOverlap(candidate, neverBound, i) && neverBound[i] == hit.value
  {
    for i := 0 to |neverBound|
      invariant NoOverlap(candidate, neverBound[..i])
    {
      if Overlap(candidate, neverBound[i]) {
        assert FirstOverlap(candidate, neverBound, i);
        return Some(neverBound[i]);
      }
      assert neverBound[..i + 1] == neverBound[..i] + [neverBound[i]];
      NoOverlapYet(candidate, neverBound[..i], neverBound[i]);
    }
    assert neverBound[..|neverBound|] == neverBound;
    hit := None;
  }

  datatype Refusal = CoversHome | CoversSecret(entry: Path)

  /** A granted root that can be bound: it neither is nor contains the operator
      home, and it overlaps no never-bound path. */
  ghost predicate Bindable(host: Host, repoReal: Path, operatorHome: Path, dataDir: Path) {
    && repoReal != operatorHome && !Within(repoReal, operatorHome)
    && forall nb :: IsNeverBound(host, operatorHome, dataDir, nb) ==> !Overlap(repoReal, nb)
  }

  method AssertGrantedRootBindable(host: Host, repoReal: Path, operatorHome: Path, dataDir: Path)
    returns (refusal: Option<Refusal>)
    ensures refusal == None <==> Bindable(host, repoReal, operatorHome, dataDir)
    ensures refusal == Some(CoversHome) <==> repoReal == operatorHome || Within(repoReal, operatorHome)
    ensures refusal.Some? && refusal.value.CoversSecret? ==>
      IsNeverBound(host, operatorHome, dataDir, refusal.value.entry) && Overlap(repoReal, refusal.value.entry)
  {
    if repoReal == operatorHome || Within(repoReal, operatorHome) { return Some(CoversHome); }
    var list := NeverBoundSet(host, operatorHome, dataDir);
    var hit := FindNeverBoundOverlap(repoReal, list);
    refusal := if hit == None then None else Some(CoversSecret(hit.value));
    if hit.Some? {
      ghost var i: nat :| FirstOverlap(repoReal, list, i) && list[i] == hit.value;
      assert list[i] in list;
    }
  }

  // ----- the argument vector -----

  datatype Flag = RoBindFlag | SymlinkFlag | ProcFlag | DevFlag | TmpfsFlag | BindFlag | SetEnvFlag
                | UnshareFlag(kind: string) | DieWithParentFlag | ChdirFlag | EndFlag

  datatype Arg = Opt(flag: Flag) | At(path: Path) | Word(text: string)

  datatype Mount = RoBind(src: Path, dst: Path) | Bind(src: Path, dst: Path) | Tmpfs(dst: Path)
                 | Proc(dst: Path) | Dev(dst: Path) | Symlink(target: string, dst: Path)

  /** The arguments that ask for a mount. */
  function Args(m: Mount): seq<Arg> {
    match m
    case RoBind(s, d) => [Opt(RoBindFlag), At(s), At(d)]
    case Bind(s, d) => [Opt(BindFlag), At(s), At(d)]
    case Tmpfs(d) => [Opt(TmpfsFlag), At(d)]
    case Proc(d) => [Opt(ProcFlag), At(d)]
    case Dev(d) => [Opt(DevFlag), At(d)]
    case Symlink(t, d) => [Opt(SymlinkFlag), Word(t), At(d)]
  }

  /** How bubblewrap reads its arguments: options in order, up to the command. */
  function ReadMounts(a: seq<Arg>): seq<Mount> {
    if a == [] || a[0] == Opt(EndFlag) then []
    else if a[0] == Opt(RoBindFlag) && |a| >= 3 && a[1].At? && a[2].At? then
      [RoBind(a[1].path, a[2].path)] + ReadMounts(a[3..])
    else if a[0] == Opt(BindFlag) && |a| >= 3 && a[1].At? && a[2].At? then
      [Bind(a[1].path, a[2].path)] + ReadMounts(a[3..])
    else if a[0] == Opt(SymlinkFlag) && |a| >= 3 && a[1].Word? && a[2].At? then
      [Symlink(a[1].text, a[2].path)] + ReadMounts(a[3..])
    else if a[0] == Opt(TmpfsFlag) && |a| >= 2 && a[1].At? then [Tmpfs(a[1].path)] + ReadMounts(a[2..])
    else if a[0] == Opt(ProcFlag) && |a| >= 2 && a[1].At? then [Proc(a[1].path)] + ReadMounts(a[2..])
    else if a[0] == Opt(DevFlag) && |a| >= 2 && a[1].At? then [Dev(a[1].path)] + ReadMounts(a[2..])
    else if a[0] == Opt(SetEnvFlag) && |a| >= 3 then ReadMounts(a[3..])
    else if a[0] == Opt(ChdirFlag) && |a| >= 2 then ReadMounts(a[2..])
    else ReadMounts(a[1..])
  }

  function Emit(ms: seq<Mount>): seq<Arg> {
    if ms == [] then [] else Emit(ms[..|ms| - 1]) + Args(ms[|ms| - 1])
  }

  lemma ReadOne(m: Mount, rest: seq<Arg>)
    ensures ReadMounts(Args(m) + rest) == [m] + ReadMounts(rest)
  {
    var a := Args(m) + rest;
    assert a[|Args(m)|..] == rest;
  }

  /** Reading back what was emitted gives the mounts, in order. */
  lemma {:induction false} ReadEmitted(ms: seq<Mount>, rest: seq<Arg>)
    ensures ReadMounts(Emit(ms) + rest) == ms + ReadMounts(rest)
  {
    if ms == [] {
      assert Emit(ms) + rest == rest;
    } else {
      var init, last := ms[..|ms| - 1], ms[|ms| - 1];
      Associative(Emit(init), Args(last), rest);
      ReadEmitted(init, Args(last) + rest);
      ReadOne(last, rest);
      Associative(init, [last], ReadMounts(rest));
      assert ms == init + [last];
    }
  }

  /** The paths of `ps` that exist, in order. */
  function Existing(host: Host, ps: seq<Path>): (r: seq<Path>)
    ensures forall p :: p in r <==> p in ps && host.exists_(p)
  {
    if ps == [] then []
    else
      var last := ps[|ps| - 1];
      assert ps == ps[..|ps| - 1] + [last];
      Existing(host, ps[..|ps| - 1]) + if host.exists_(last) then [last] else []
  }

  /** One bind in place per path. */
  function BindAll(readOnly: bool, ps: seq<Path>): (ms: seq<Mount>)
    ensures |ms| == |ps| && forall i :: 0 <= i < |ps| ==>
      ms[i] == if readOnly then RoBind(ps[i], ps[i]) else Bind(ps[i], ps[i])
  {
    seq(|ps|, i requires 0 <= i < |ps| => if readOnly then RoBind(ps[i], ps[i]) else Bind(ps[i], ps[i]))
  }

  /** What every sandbox gets, before anything of the operator or the agent. */
  function SystemMounts(host: Host): seq<Mount> {
    UsrMounts() + BindAll(true, Existing(host, ETC_RO_BINDS)) + KernelMounts()
  }

  function Caches(host: Host, o: Opts): seq<Path> {
    Existing(host, Under(o.operatorHome, CACHES_HOME_RELATIVE))
  }

  /** What is bound on top of the hidden operator home. */
  function GrantedMounts(host: Host, o: Opts): seq<Mount> {
    [Bind(o.repoReal, o.repoReal), Bind(o.agentHome, o.agentHome)] + BindAll(false, Caches(host, o))
  }

  /** The mounts in the order in which they are made. */
  function Mounts(host: Host, o: Opts): seq<Mount> {
    SystemMounts(host) + [Tmpfs(o.operatorHome)] + GrantedMounts(host, o)
  }

  lemma EmitAppend(ms: seq<Mount>, m: Mount)
    ensures Emit(ms + [m]) == Emit(ms) + Args(m)
  {
    assert (ms + [m])[..|ms|] == ms;
  }

  function BindOf(readOnly: bool, p: Path): Mount {
    if readOnly then RoBind(p, p) else Bind(p, p)
  }

  lemma BindAllNext(host: Host, ps: seq<Path>, i: nat, readOnly: bool)
    requires i < |ps|
    ensures var before := BindAll(readOnly, Existing(host, ps[..i]));
      BindAll(readOnly, Existing(host, ps[..i + 1])) ==
        if host.exists_(ps[i]) then before + [BindOf(readOnly, ps[i])] else before
  {
    assert ps[..i + 1][..i] == ps[..i];
  }

  lemma EmitBind(host: Host, done: seq<Mount>, ps: seq<Path>, i: nat, readOnly: bool)
    requires i < |ps|
    ensures var before := BindAll(readOnly, Existing(host, ps[..i]));
      var after := BindAll(readOnly, Existing(host, ps[..i + 1]));
      Emit(done + after) ==
        if host.exists_(ps[i]) then Emit(done + before) + Args(BindOf(readOnly, ps[i])) else Emit(done + before)
  {
    var before := BindAll(readOnly, Existing(host, ps[..i]));
    BindAllNext(host, ps, i, readOnly);
    EmitAppend(done + before, BindOf(readOnly, ps[i]));
    Associative(done, before, [BindOf(readOnly, ps[i])]);
  }

  lemma OneByOne<T>(d: seq<T>, x: T, y: T, z: T, c: seq<T>)
    ensures d + [x] + [y] + [z] == d + [x, y, z]
    ensures d + [x] + [y] + [z] + c == d + [x] + ([y, z] + c)
  {
  }

  /** The loop that binds each listed path only when it exists. */
  method PushBinds(host: Host, a: seq<Arg>, ghost done: seq<Mount>, ps: seq<Path>, readOnly: bool) returns (r: seq<Arg>)
    requires a == Emit(done)
    ensures r == Emit(done + BindAll(readOnly, Existing(host, ps)))
  {
    r := a;
    assert done + BindAll(readOnly, Existing(host, ps[..0])) == done;
    for i := 0 to |ps|
      invariant r == Emit(done + BindAll(readOnly, Existing(host, ps[..i])))
    {
      EmitBind(host, done, ps, i, readOnly);
      if host.exists_(ps[i]) {
        r := r + [Opt(if readOnly then RoBindFlag else BindFlag), At(ps[i]), At(ps[i])];
      }
    }
    assert ps[..|ps|] == ps;
  }

  method Push(a: seq<Arg>, ghost done: seq<Mount>, m: Mount) returns (r: seq<Arg>)
    requires a == Emit(done)
    ensures r == Emit(done + [m])
  {
    EmitAppend(done, m);
    r := a + Args(m);
  }

  method PushThree(a: seq<Arg>, ghost done: seq<Mount>, x: Mount, y: Mount, z: Mount) returns (r: seq<Arg>)
    requires a == Emit(done)
    ensures r == Emit(done + [x, y, z])
  {
    r := Push(a, done, x);
    r := Push(r, done + [x], y);
    r := Push(r, done + [x] + [y], z);
    OneByOne(done, x, y, z, []);
  }

  lemma FiveInARow<T>(u: T, v: T, x: T, y: T, z: T)
    ensures [] + [u, v, x] + [y] + [z] == [u, v, x, y, z]
  {
  }

  method PushFive(u: Mount, v: Mount, x: Mount, y: Mount, z: Mount) returns (r: seq<Arg>)
    ensures r == Emit([u, v, x, y, z])
  {
    r := PushThree([], [], u, v, x);
    r := Push(r, [] + [u, v, x], y);
    r := Push(r, [] + [u, v, x] + [y], z);
    FiveInARow(u, v, x, y, z);
  }

  /** /usr and the links into it. */
  function UsrMounts(): seq<Mount> {
    [RoBind(["usr"], ["usr"]), Symlink("usr/bin", ["bin"]), Symlink("usr/sbin", ["sbin"]),
     Symlink("usr/lib", ["lib"]), Symlink("usr/lib64", ["lib64"])]
  }

  method PushUsr() returns (a: seq<Arg>)
    ensures a == Emit(UsrMounts())
  {
    a := PushFive(RoBind(["usr"], ["usr"]), Symlink("usr/bin", ["bin"]), Symlink("usr/sbin", ["sbin"]),
                  Symlink("usr/lib", ["lib"]), Symlink("usr/lib64", ["lib64"]));
  }

  function KernelMounts(): seq<Mount> {
    [Proc(["proc"]), Dev(["dev"]), Tmpfs(["tmp"])]
  }

  method PushKernel(a: seq<Arg>, ghost done: seq<Mount>) returns (r: seq<Arg>)
    requires a == Emit(done)
    ensures r == Emit(done + KernelMounts())
  {
    r := PushThree(a, done, Proc(["proc"]), Dev(["dev"]), Tmpfs(["tmp"]));
  }

  method PushSystem(host: Host) returns (a: seq<Arg>)
    ensures a == Emit(SystemMounts(host))
  {
    a := PushUsr();
    a := PushBinds(host, a, UsrMounts(), ETC_RO_BINDS, true);
    a := PushKernel(a, UsrMounts() + BindAll(true, Existing(host, ETC_RO_BINDS)));
  }

  method PushGranted(host: Host, o: Opts, a: seq<Arg>, ghost done: seq<Mount>) returns (r: seq<Arg>)
    requires a == Emit(done)
    ensures r == Emit(done + [Tmpfs(o.operatorHome)] + GrantedMounts(host, o))
  {
    var repo, home := Bind(o.repoReal, o.repoReal), Bind(o.agentHome, o.agentHome);
    var cover := Tmpfs(o.operatorHome);
    r := Push(a, done, cover);
    r := Push(r, done + [cover], repo);
    r := Push(r, done + [cover] + [repo], home);
    r := PushBinds(host, r, done + [cover] + [repo] + [home], Under(o.operatorHome, CACHES_HOME_RELATIVE), false);
    OneByOne(done, cover, repo, home, BindAll(false, Caches(host, o)));
  }

  function SetEnv(name: string, value: Arg): seq<Arg> {
    [Opt(SetEnvFlag), Word(name), value]
  }

  function Isolation(): seq<Arg> {
    [Opt(UnshareFlag("user")), Opt(UnshareFlag("pid")), Opt(UnshareFlag("ipc")), Opt(UnshareFlag("uts")),
     Opt(UnshareFlag("cgroup")), Opt(DieWithParentFlag)]
  }

  /** Everything after the mounts: environment, namespaces, start directory, command. */
  function Tail(o: Opts, command: seq<Arg>): seq<Arg> {
    SetEnv("HOME", At(o.agentHome)) + (SetEnv("PATH", Word("/usr/bin:/bin"))
    + (Isolation() + ([Opt(ChdirFlag), At(o.cwd)] + ([Opt(EndFlag)] + command))))
  }

  lemma SetEnvReadsNothing(name: string, value: Arg, rest: seq<Arg>)
    ensures ReadMounts(SetEnv(name, value) + rest) == ReadMounts(rest)
  {
    assert (SetEnv(name, value) + rest)[3..] == rest;
  }

  lemma {:induction false} IsolationReadsNothing(flags: seq<Arg>, rest: seq<Arg>)
    requires forall a :: a in flags ==> a.Opt? && (a.flag.UnshareFlag? || a.flag.DieWithParentFlag?)
    ensures ReadMounts(flags + rest) == ReadMounts(rest)
  {
    if flags == [] {
      assert flags + rest == rest;
    } else {
      assert (flags + rest)[1..] == flags[1..] + rest && (flags + rest)[0] in flags;
      IsolationReadsNothing(flags[1..], rest);
    }
  }

  lemma ChdirReadsNothing(p: Path, rest: seq<Arg>)
    ensures ReadMounts([Opt(ChdirFlag), At(p)] + rest) == ReadMounts(rest)
  {
    assert ([Opt(ChdirFlag), At(p)] + rest)[2..] == rest;
  }

  lemma TailReadsNothing(o: Opts, command: seq<Arg>)
    ensures ReadMounts(Tail(o, command)) == []
  {
    var end := [Opt(EndFlag)] + command;
    var start := [Opt(ChdirFlag), At(o.cwd)] + end;
    ChdirReadsNothing(o.cwd, end);
    IsolationReadsNothing(Isolation(), start);
    SetEnvReadsNothing("PATH", Word("/usr/bin:/bin"), Isolation() + start);
    SetEnvReadsNothing("HOME", At(o.agentHome), SetEnv("PATH", Word("/usr/bin:/bin")) + (Isolation() + start));
  }

  /** What the rest of the arguments ask for: variables, namespaces that are not
      shared, the start directory and the command. */
  datatype Setup = Setup(
    env: map<string, Arg>, unshared: set<string>, dies: bool, start: Option<Path>, command: Option<seq<Arg>>)

  /** How bubblewrap reads them; a later option goes before an earlier one. */
  function ReadSetup(a: seq<Arg>): Setup {
    if a == [] then Setup(map[], {}, false, None, None)
    else if a[0] == Opt(EndFlag) then Setup(map[], {}, false, None, Some(a[1..]))
    else if a[0] == Opt(SetEnvFlag) && |a| >= 3 && a[1].Word? then
      var s := ReadSetup(a[3..]);
      if a[1].text in s.env then s else s.(env := s.env[a[1].text := a[2]])
    else if a[0] == Opt(ChdirFlag) && |a| >= 2 && a[1].At? then
      var s := ReadSetup(a[2..]);
      if s.start.Some? then s else s.(start := Some(a[1].path))
    else if a[0] == Opt(DieWithParentFlag) then ReadSetup(a[1..]).(dies := true)
    else if a[0].Opt? && a[0].flag.UnshareFlag? then
      var s := ReadSetup(a[1..]);
      s.(unshared := s.unshared + {a[0].flag.kind})
    else ReadSetup(a[1..])
  }

  lemma MountSetsUpNothing(m: Mount, rest: seq<Arg>)
    ensures ReadSetup(Args(m) + rest) == ReadSetup(rest)
  {
    var a := Args(m) + rest;
    assert a[|Args(m)|..] == rest;
    var b, c := a[1..], a[1..][1..];
    assert ReadSetup(a) == ReadSetup(b) == ReadSetup(c);
    if |Args(m)| == 2 { assert c == rest; } else { assert c[1..] == rest; }
  }

  lemma {:induction false} EmittedSetsUpNothing(ms: seq<Mount>, rest: seq<Arg>)
    ensures ReadSetup(Emit(ms) + rest) == ReadSetup(rest)
  {
    if ms == [] {
      assert Emit(ms) + rest == rest;
    } else {
      var init, last := ms[..|ms| - 1], ms[|ms| - 1];
      Associative(Emit(init), Args(last), rest);
      EmittedSetsUpNothing(init, Args(last) + rest);
      MountSetsUpNothing(last, rest);
    }
  }

  /** The environment, the namespaces that are not shared (the network is), the
      start directory and the command. */
  function Wanted(o: Opts, command: seq<Arg>): Setup {
    Setup(map["HOME" := At(o.agentHome), "PATH" := Word("/usr/bin:/bin")], {"user", "pid", "ipc", "uts", "cgroup"},
          true, Some(o.cwd), Some(command))
  }

  lemma SetEnvRead(name: string, value: Arg, rest: seq<Arg>)
    ensures ReadSetup(SetEnv(name, value) + rest) ==
      var s := ReadSetup(rest); if name in s.env then s else s.(env := s.env[name := value])
  {
    assert (SetEnv(name, value) + rest)[3..] == rest;
  }

  lemma FlagRead(flag: Flag, rest: seq<Arg>)
    requires flag.UnshareFlag? || flag == DieWithParentFlag
    ensures ReadSetup([Opt(flag)] + rest) ==
      var s := ReadSetup(rest);
      if flag == DieWithParentFlag then s.(dies := true) else s.(unshared := s.unshared + {flag.kind})
  {
    assert ([Opt(flag)] + rest)[1..] == rest;
  }

  lemma SixFlags(a: Arg, b: Arg, c: Arg, d: Arg, e: Arg, f: Arg, rest: seq<Arg>)
    ensures [a, b, c, d, e, f] + rest == [a] + ([b] + ([c] + ([d] + ([e] + ([f] + rest)))))
  {
  }

  lemma IsolationRead(rest: seq<Arg>)
    ensures ReadSetup(Isolation() + rest) ==
      ReadSetup(rest).(dies := true, unshared := ReadSetup(rest).unshared + {"user", "pid", "ipc", "uts", "cgroup"})
  {
    var user, pid, ipc := UnshareFlag("user"), UnshareFlag("pid"), UnshareFlag("ipc");
    var uts, cgroup, die := UnshareFlag("uts"), UnshareFlag("cgroup"), DieWithParentFlag;
    hide ReadSetup;
    SixFlags(Opt(user), Opt(pid), Opt(ipc), Opt(uts), Opt(cgroup), Opt(die), rest);
    var e := [Opt(die)] + rest;
    var d := [Opt(cgroup)] + e;
    var c := [Opt(uts)] + d;
    var b := [Opt(ipc)] + c;
    var a := [Opt(pid)] + b;
    FlagRead(user, a);
    FlagRead(pid, b);
    FlagRead(ipc, c);
    FlagRead(uts, d);
    FlagRead(cgroup, e);
    FlagRead(die, rest);
  }

  lemma EndRead(start: Path, command: seq<Arg>)
    ensures ReadSetup([Opt(ChdirFlag), At(start)] + ([Opt(EndFlag)] + command)) ==
      Setup(map[], {}, false, Some(start), Some(command))
  {
    var end := [Opt(EndFlag)] + command;
    assert end[1..] == command;
    assert ([Opt(ChdirFlag), At(start)] + end)[2..] == end;
  }

  lemma TailRead(o: Opts, command: seq<Arg>)
    ensures ReadSetup(Tail(o, command)) == Wanted(o, command)
  {
    var start := [Opt(ChdirFlag), At(o.cwd)] + ([Opt(EndFlag)] + command);
    hide ReadSetup;
    EndRead(o.cwd, command);
    IsolationRead(start);
    SetEnvRead("PATH", Word("/usr/bin:/bin"), Isolation() + start);
    SetEnvRead("HOME", At(o.agentHome), SetEnv("PATH", Word("/usr/bin:/bin")) + (Isolation() + start));
  }

  datatype Spawn = Spawned(argv: seq<Arg>) | Refused(why: Refusal)

  /** `spawnConfined`: refuse, or build the argument vector. */
  method SpawnConfined(host: Host, o: Opts, command: seq<Arg>) returns (result: Spawn)
    ensures result.Spawned? <==> Bindable(host, o.repoReal, o.operatorHome, o.dataDir)
    ensures result.Spawned? ==> ReadMounts(result.argv) == Mounts(host, o)
    ensures result.Spawned? ==> ReadSetup(result.argv) == Wanted(o, command)
  {
    var refusal := AssertGrantedRootBindable(host, o.repoReal, o.operatorHome, o.dataDir);
    if refusal.Some? { return Refused(refusal.value); }
    var a := PushSystem(host);
    a := PushGranted(host, o, a, SystemMounts(host));
    ReadEmitted(Mounts(host, o), Tail(o, command));
    TailReadsNothing(o, command);
    EmittedSetsUpNothing(Mounts(host, o), Tail(o, command));
    TailRead(o, command);
    result := Spawned(a + Tail(o, command));
  }

  // ----- what the sandbox shows -----

  /** What is found at a path: nothing, host content, an empty tmpfs, a kernel
      surface, or a link elsewhere in the sandbox. */
  datatype View = Nothing | HostFile(path: Path, writable: bool) | EmptyTmpfs | Kernel | Link(target: string)

  function Content(m: Mount, p: Path): View
    requires m.dst <= p
  {
    match m
    case RoBind(s, d) => HostFile(s + p[|d|..], false)
    case Bind(s, d) => HostFile(s + p[|d|..], true)
    case Tmpfs(_) => EmptyTmpfs
    case Proc(_) => Kernel
    case Dev(_) => Kernel
    case Symlink(t, _) => Link(t)
  }

  /** A later mount shadows earlier ones at and below its mount point. */
  function See(ms: seq<Mount>, p: Path): View {
    if ms == [] then Nothing
    else
      var last := ms[|ms| - 1];
      if last.dst <= p then Content(last, p) else See(ms[..|ms| - 1], p)
  }

  lemma {:induction false} SeeAppend(a: seq<Mount>, b: seq<Mount>, p: Path)
    ensures See(a + b, p) == if exists i :: 0 <= i < |b| && b[i].dst <= p then See(b, p) else See(a, p)
  {
    if b == [] {
      assert a + b == a;
    } else {
      assert (a + b)[..|a + b| - 1] == a + b[..|b| - 1];
      SeeAppend(a, b[..|b| - 1], p);
    }
  }

  /** Every bind shows a host path at its own place. */
  lemma {:induction false} SeeInPlace(ms: seq<Mount>, p: Path)
    requires forall i :: 0 <= i < |ms| ==> InPlace(ms[i])
    ensures See(ms, p).HostFile? ==>
      See(ms, p).path == p && exists i :: 0 <= i < |ms| && (ms[i].Bind? || ms[i].RoBind?) && ms[i].dst <= p
  {
    if ms != [] {
      if ms[|ms| - 1].dst <= p {
        assert ms[|ms| - 1].dst + p[|ms[|ms| - 1].dst|..] == p;
      } else {
        SeeInPlace(ms[..|ms| - 1], p);
      }
    }
  }

  /** The host paths shared with every sandbox: /usr, files of /etc, the caches. */
  ghost predicate Shared(host: Host, o: Opts, p: Path) {
    p == ["usr"] || p in ETC_RO_BINDS || p in Caches(host, o)
  }

  lemma OverlapIsComparable(a: Path, b: Path)
    requires a != [] && b != []
    ensures Overlap(a, b) <==> a <= b || b <= a
  {
    WithinIsPrefix(a, b);
    WithinIsPrefix(b, a);
  }

  predicate InPlace(m: Mount) {
    m.Bind? || m.RoBind? ==> m.src == m.dst
  }

  lemma MountsInPlace(host: Host, o: Opts, i: nat)
    requires i < |Mounts(host, o)|
    ensures var m := Mounts(host, o)[i];
      InPlace(m) && (m.Bind? || m.RoBind? ==> m.dst == o.repoReal || m.dst == o.agentHome || Shared(host, o, m.dst))
  {
    var sys, granted := SystemMounts(host), GrantedMounts(host, o);
    if i < |sys| {
      assert Mounts(host, o)[i] == sys[i];
      var etc := Existing(host, ETC_RO_BINDS);
      if 5 <= i < 5 + |etc| { assert sys[i] == BindAll(true, etc)[i - 5] && etc[i - 5] in etc; }
    } else if i > |sys| {
      var k := i - |sys| - 1;
      assert Mounts(host, o)[i] == granted[k];
      if k >= 2 {
        var caches := Caches(host, o);
        assert granted[k] == BindAll(false, caches)[k - 2] && caches[k - 2] in caches;
      }
    }
  }

  /** Whenever a spawn is not refused, no never-bound path is visible anywhere in
      the sandbox outside the agent's own home. */
  lemma SecretsHidden(host: Host, o: Opts, nb: Path, p: Path)
    requires o.repoReal != [] && nb != []
    requires Bindable(host, o.repoReal, o.operatorHome, o.dataDir)
    requires IsNeverBound(host, o.operatorHome, o.dataDir, nb)
    requires forall q :: Shared(host, o, q) ==> q != [] && !Overlap(q, nb)
    ensures var v := See(Mounts(host, o), p); v.HostFile? && nb <= v.path ==> o.agentHome <= v.path
  {
    var ms := Mounts(host, o);
    forall i | 0 <= i < |ms| ensures InPlace(ms[i]) { MountsInPlace(host, o, i); }
    SeeInPlace(ms, p);
    if See(ms, p).HostFile? && nb <= p {
      var i :| 0 <= i < |ms| && (ms[i].Bind? || ms[i].RoBind?) && ms[i].dst <= p;
      MountsInPlace(host, o, i);
      HiddenBy(host, o, nb, p, ms[i].dst);
    }
  }

  lemma HiddenBy(host: Host, o: Opts, nb: Path, p: Path, d: Path)
    requires o.repoReal != [] && nb != [] && nb <= p && d <= p
    requires !Overlap(o.repoReal, nb) && forall q :: Shared(host, o, q) ==> q != [] && !Overlap(q, nb)
    requires d == o.repoReal || d == o.agentHome || Shared(host, o, d)
    ensures d == o.agentHome
  {
    if d != o.agentHome {
      BothPrefixes(d, nb, p);
      OverlapIsComparable(d, nb);
    }
  }

  lemma SeeHidden(before: seq<Mount>, home: Path, after: seq<Mount>, p: Path)
    requires home <= p && forall i :: 0 <= i < |after| ==> !(after[i].dst <= p)
    ensures See(before + [Tmpfs(home)] + after, p) == EmptyTmpfs
  {
    SeeAppend(before + [Tmpfs(home)], after, p);
  }

  /** Everything else beneath the operator home is an empty tmpfs. */
  lemma HomeIsEmpty(host: Host, o: Opts, p: Path)
    requires o.operatorHome <= p && !(o.repoReal <= p) && !(o.agentHome <= p)
    requires forall c :: c in Caches(host, o) ==> !(c <= p)
    ensures See(Mounts(host, o), p) == EmptyTmpfs
  {
    var granted, caches := GrantedMounts(host, o), Caches(host, o);
    forall i | 0 <= i < |granted| ensures !(granted[i].dst <= p) {
      if i >= 2 { assert granted[i] == BindAll(false, caches)[i - 2] && caches[i - 2] in caches; }
    }
    SeeHidden(SystemMounts(host), o.operatorHome, granted, p);
  }

  lemma SeeGranted(before: seq<Mount>, granted: seq<Mount>, p: Path)
    requires forall i :: 0 <= i < |granted| ==> granted[i].Bind? && granted[i].src == granted[i].dst
    requires exists i :: 0 <= i < |granted| && granted[i].dst <= p
    ensures See(before + granted, p) == HostFile(p, true)
  {
    SeeAppend(before, granted, p);
    SeeWritable(granted, p);
  }

  /** The granted root (with the start directory in it) and the agent's home show
      the host's files, writable. */
  lemma GrantedIsWritable(host: Host, o: Opts, p: Path)
    requires o.repoReal <= p || o.agentHome <= p
    ensures See(Mounts(host, o), p) == HostFile(p, true)
  {
    var granted := GrantedMounts(host, o);
    assert granted[0].dst <= p || granted[1].dst <= p;
    SeeGranted(SystemMounts(host) + [Tmpfs(o.operatorHome)], granted, p);
  }

  /** `p` shows nothing of `nb` but what lies in the agent's own home. */
  ghost predicate Hidden(host: Host, o: Opts, nb: Path, p: Path) {
    var v := See(Mounts(host, o), p);
    v.HostFile? && nb <= v.path ==> o.agentHome <= v.path
  }

  /** The guard admits "/" as a granted root, for its text test finds nothing else
      within it, unless the home or a never-bound path is "/" itself. */
  lemma RootDirectoryIsBindable(host: Host, home: Path, dataDir: Path)
    ensures Bindable(host, [], home, dataDir) <==>
      home != [] && forall nb :: IsNeverBound(host, home, dataDir, nb) ==> nb != []
  {
    WithinIsPrefix([], home);
    forall nb ensures Overlap([], nb) <==> nb == [] {
      WithinIsPrefix([], nb);
      WithinIsPrefix(nb, []);
    }
  }

  /** A sandbox over "/" shows every host path read-write. */
  lemma RootDirectoryShowsAll(host: Host, o: Opts, p: Path)
    requires o.repoReal == []
    ensures See(Mounts(host, o), p) == HostFile(p, true)
  {
    GrantedIsWritable(host, o, p);
  }

  /** So a never-bound path outside the agent's home is hidden everywhere in the
      sandbox if and only if the granted root is not "/". */
  lemma SecretsHiddenIff(host: Host, o: Opts, nb: Path)
    requires nb != [] && !(o.agentHome <= nb) && Bindable(host, o.repoReal, o.operatorHome, o.dataDir)
    requires IsNeverBound(host, o.operatorHome, o.dataDir, nb)
    requires forall q :: Shared(host, o, q) ==> q != [] && !Overlap(q, nb)
    ensures (forall p :: Hidden(host, o, nb, p)) <==> o.repoReal != []
  {
    if o.repoReal == [] {
      RootDirectoryShowsAll(host, o, nb);
      assert !Hidden(host, o, nb, nb);
    } else {
      forall p ensures Hidden(host, o, nb, p) { SecretsHidden(host, o, nb, p); }
    }
  }

  lemma {:induction false} SeeWritable(ms: seq<Mount>, p: Path)
    requires forall i :: 0 <= i < |ms| ==> ms[i].Bind? && ms[i].src == ms[i].dst
    requires exists i :: 0 <= i < |ms| && ms[i].dst <= p
    ensures See(ms, p) == HostFile(p, true)
  {
    var last := ms[|ms| - 1];
    if last.dst <= p {
      assert last.dst + p[|last.dst|..] == p;
    } else {
      var i :| 0 <= i < |ms| && ms[i].dst <= p;
      assert ms[..|ms| - 1][i] == ms[i];
      SeeWritable(ms[..|ms| - 1], p);
    }
  }
}
