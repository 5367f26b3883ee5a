/** What a confined agent sees at every path, and which host paths are secret,
    spelled out. */
module SandboxView {
  import opened Confinement
  import opened Options
  import opened Paths

  /** The system part: /usr, the links into it, seven entries of /etc if they exist,
      kernel surfaces, and an empty /tmp. */
  function SystemView(host: Host, p: Path): View {
    if p == [] then Nothing
    else if p[0] == "tmp" then EmptyTmpfs
    else if p[0] == "proc" || p[0] == "dev" then Kernel
    else if EtcEntry(p) && host.exists_(p[..2]) then HostFile(p, false)
    else if p[0] == "bin" then Link("usr/bin")
    else if p[0] == "sbin" then Link("usr/sbin")
    else if p[0] == "lib" then Link("usr/lib")
    else if p[0] == "lib64" then Link("usr/lib64")
    else if p[0] == "usr" then HostFile(p, false)
    else Nothing
  }

  predicate EtcEntry(p: Path) {
    && |p| > 1 && p[0] == "etc"
    && p[1] in {"resolv.conf", "ssl", "ca-certificates", "passwd", "group", "nsswitch.conf", "alternatives"}
  }

  /** `p` is in one of the three caches under the home, and it exists. */
  predicate InCache(host: Host, home: Path, p: Path) {
    || InPart(host, home + [".local", "share", "pnpm", "store"], p)
    || InPart(host, home + [".cargo", "registry"], p)
    || InPart(host, home + [".cargo", "git"], p)
  }

  predicate InPart(host: Host, part: Path, p: Path) {
    host.exists_(part) && part <= p
  }

  ghost predicate Above(ps: seq<Path>, p: Path) {
    exists q :: q in ps && q <= p
  }

  lemma {:induction false} SeeBinds(readOnly: bool, ps: seq<Path>, p: Path)
    ensures See(BindAll(readOnly, ps), p) == if Above(ps, p) then HostFile(p, !readOnly) else Nothing
  {
    if ps != [] {
      var init, last := ps[..|ps| - 1], ps[|ps| - 1];
      assert BindAll(readOnly, ps)[..|ps| - 1] == BindAll(readOnly, init);
      assert ps == init + [last];
      SeeBinds(readOnly, init, p);
      AboveNext(init, last, p);
      if last <= p { assert last + p[|last|..] == p; }
    }
  }

  lemma AboveNext(init: seq<Path>, last: Path, p: Path)
    ensures Above(init + [last], p) <==> Above(init, p) || last <= p
  {
    assert last in init + [last];
    assert forall q :: q in init ==> q in init + [last];
  }

  lemma EtcListed(q: Path)
    ensures q in ETC_RO_BINDS <==> |q| == 2 && EtcEntry(q)
  {
    var etc: Segment := "etc";
    assert |q| == 2 ==> q == [q[0], q[1]];
  }

  lemma EtcAbove(host: Host, p: Path)
    ensures Above(Existing(host, ETC_RO_BINDS), p) <==> EtcEntry(p) && host.exists_(p[..2])
  {
    hide Existing;
    var ps := Existing(host, ETC_RO_BINDS);
    ExistingListed(host, ETC_RO_BINDS);
    if Above(ps, p) {
      var q :| q in ps && q <= p;
      EtcListed(q);
      assert p[..2] == q;
    }
    if EtcEntry(p) && host.exists_(p[..2]) {
      EtcListed(p[..2]);
      assert p[..2] in ps;
    }
  }

  lemma ExistingListed(host: Host, ps: seq<Path>)
    ensures forall p :: p in Existing(host, ps) <==> p in ps && host.exists_(p)
  {
  }

  lemma CacheListed(home: Path, q: Path)
    ensures q in Under(home, CACHES_HOME_RELATIVE) <==>
      q in {home + [".local", "share", "pnpm", "store"], home + [".cargo", "registry"], home + [".cargo", "git"]}
  {
    var ps := Under(home, CACHES_HOME_RELATIVE);
    assert ps[0] == home + [".local", "share", "pnpm", "store"];
    assert ps[1] == home + [".cargo", "registry"];
    assert ps[2] == home + [".cargo", "git"];
  }

  lemma CachesAbove(host: Host, o: Opts, p: Path)
    ensures Above(Caches(host, o), p) <==> InCache(host, o.operatorHome, p)
  {
    hide Existing, Under;
    ExistingListed(host, Under(o.operatorHome, CACHES_HOME_RELATIVE));
    forall q ensures q in Under(o.operatorHome, CACHES_HOME_RELATIVE) <==>
      q in {o.operatorHome + [".local", "share", "pnpm", "store"], o.operatorHome + [".cargo", "registry"],
            o.operatorHome + [".cargo", "git"]}
    {
      CacheListed(o.operatorHome, q);
    }
  }

  /** A list of mounts after another: what the later ones show, or else the earlier. */
  lemma SeeLater(a: seq<Mount>, b: seq<Mount>, p: Path)
    ensures See(a + b, p) == if See(b, p) != Nothing then See(b, p) else See(a, p)
  {
    SeeAppend(a, b, p);
    SeesSome(b, p);
  }

  lemma {:induction false} SeesSome(ms: seq<Mount>, p: Path)
    ensures See(ms, p) != Nothing <==> exists i :: 0 <= i < |ms| && ms[i].dst <= p
  {
    if ms != [] {
      var init := ms[..|ms| - 1];
      SeesSome(init, p);
      if i :| 0 <= i < |ms| && ms[i].dst <= p {
        if i < |init| { assert init[i] == ms[i]; }
      }
      if i :| 0 <= i < |init| && init[i].dst <= p { assert ms[i] == init[i]; }
    }
  }

  lemma SeeOne(m: Mount, p: Path)
    ensures See([m], p) == if m.dst <= p then Content(m, p) else Nothing
  {
    assert [m][..0] == [];
  }

  lemma OneSegment(s: Segment, p: Path)
    ensures [s] <= p <==> p != [] && p[0] == s
  {
  }

  lemma KernelShows(p: Path)
    ensures See(KernelMounts(), p) ==
      if p == [] then Nothing
      else if p[0] == "tmp" then EmptyTmpfs
      else if p[0] == "proc" || p[0] == "dev" then Kernel else Nothing
  {
    var ms := KernelMounts();
    assert ms == [ms[0]] + [ms[1]] + [ms[2]];
    SeeLater([ms[0]] + [ms[1]], [ms[2]], p);
    SeeLater([ms[0]], [ms[1]], p);
    SeeOne(ms[0], p);
    SeeOne(ms[1], p);
    SeeOne(ms[2], p);
    OneSegment("proc", p);
    OneSegment("dev", p);
    OneSegment("tmp", p);
  }

  lemma UsrShows(p: Path)
    ensures See(UsrMounts(), p) ==
      if p == [] then Nothing
      else if p[0] == "bin" then Link("usr/bin")
      else if p[0] == "sbin" then Link("usr/sbin")
      else if p[0] == "lib" then Link("usr/lib")
      else if p[0] == "lib64" then Link("usr/lib64")
      else if p[0] == "usr" then HostFile(p, false)
      else Nothing
  {
    var ms := UsrMounts();
    var a, b, c := [ms[0]] + [ms[1]], [ms[0]] + [ms[1]] + [ms[2]], [ms[0]] + [ms[1]] + [ms[2]] + [ms[3]];
    assert ms == c + [ms[4]];
    SeeLater(c, [ms[4]], p);
    SeeLater(b, [ms[3]], p);
    SeeLater(a, [ms[2]], p);
    SeeLater([ms[0]], [ms[1]], p);
    forall i | 0 <= i < 5 ensures See([ms[i]], p) == if ms[i].dst <= p then Content(ms[i], p) else Nothing {
      SeeOne(ms[i], p);
    }
    OneSegment("usr", p);
    OneSegment("bin", p);
    OneSegment("sbin", p);
    OneSegment("lib", p);
    OneSegment("lib64", p);
    if p != [] && p[0] == "usr" { assert ["usr"] + p[1..] == p; }
  }

  lemma SystemShows(host: Host, p: Path)
    ensures See(SystemMounts(host), p) == SystemView(host, p)
  {
    var etc := BindAll(true, Existing(host, ETC_RO_BINDS));
    hide See, UsrMounts, KernelMounts, Existing, BindAll;
    SeeLater(UsrMounts() + etc, KernelMounts(), p);
    SeeLater(UsrMounts(), etc, p);
    KernelShows(p);
    UsrShows(p);
    SeeBinds(true, Existing(host, ETC_RO_BINDS), p);
    EtcAbove(host, p);
  }

  lemma GrantedShows(host: Host, o: Opts, p: Path)
    ensures See(GrantedMounts(host, o), p) ==
      if o.repoReal <= p || o.agentHome <= p || InCache(host, o.operatorHome, p) then HostFile(p, true) else Nothing
  {
    var repo, home := Bind(o.repoReal, o.repoReal), Bind(o.agentHome, o.agentHome);
    var caches := BindAll(false, Caches(host, o));
    assert GrantedMounts(host, o) == [repo] + [home] + caches;
    SeeLater([repo] + [home], caches, p);
    SeeLater([repo], [home], p);
    SeeOne(repo, p);
    SeeOne(home, p);
    SeeBinds(false, Caches(host, o), p);
    CachesAbove(host, o, p);
    if o.repoReal <= p { assert o.repoReal + p[|o.repoReal|..] == p; }
    if o.agentHome <= p { assert o.agentHome + p[|o.agentHome|..] == p; }
  }

  /** The whole sandbox, at every path: the granted root, the agent's home and the
      existing caches are the host's, writable; the rest of the operator home is
      empty; everything else is the system part. */
  lemma SandboxShows(host: Host, o: Opts, p: Path)
    ensures See(Mounts(host, o), p) ==
      if o.repoReal <= p || o.agentHome <= p || InCache(host, o.operatorHome, p) then HostFile(p, true)
      else if o.operatorHome <= p then EmptyTmpfs
      else SystemView(host, p)
  {
    hide See, SystemMounts, GrantedMounts, InCache, SystemView;
    SeeLater(SystemMounts(host) + [Tmpfs(o.operatorHome)], GrantedMounts(host, o), p);
    SeeLater(SystemMounts(host), [Tmpfs(o.operatorHome)], p);
    SeeOne(Tmpfs(o.operatorHome), p);
    SystemShows(host, p);
    GrantedShows(host, o, p);
  }

  // ----- the never-bound paths -----

  /** Eight places under the operator home, two Windows mounts, the data directory,
      and the user's runtime directory if the platform has user ids. */
  predicate Secret(host: Host, home: Path, dataDir: Path, p: Path) {
    || p == home + [".ssh"] || p == home + [".age-identity"] || p == home + [".revealui", "passage-store"]
    || p == home + [".config", "gh"] || p == home + [".npmrc"] || p == home + [".aws"]
    || p == home + [".docker", "config.json"] || p == home + [".claude"]
    || p == ["mnt", "c"] || p == ["mnt", "e"] || p == dataDir
    || (host.uid.Some? && p == ["run", "user", host.uid.value])
  }

  lemma LexicalIsSecret(host: Host, home: Path, dataDir: Path, p: Path)
    ensures p in LexicalNeverBound(host, home, dataDir) <==> Secret(host, home, dataDir, p)
  {
    var under := Under(home, NEVER_BOUND_HOME_RELATIVE);
    assert under == [
      home + [".ssh"], home + [".age-identity"], home + [".revealui", "passage-store"], home + [".config", "gh"],
      home + [".npmrc"], home + [".aws"], home + [".docker", "config.json"], home + [".claude"]];
  }

  /** The never-bound paths are the secret ones, as they are named and as they
      resolve. */
  lemma NeverBoundIsSecret(host: Host, home: Path, dataDir: Path, p: Path)
    ensures IsNeverBound(host, home, dataDir, p) <==>
      || Secret(host, home, dataDir, p)
      || exists q :: Secret(host, home, dataDir, q) && host.realpath(q) == Some(p)
  {
    hide LexicalNeverBound, Secret;
    forall q ensures q in LexicalNeverBound(host, home, dataDir) <==> Secret(host, home, dataDir, q) {
      LexicalIsSecret(host, home, dataDir, q);
    }
    LexicalIsSecret(host, home, dataDir, p);
    if q :| Secret(host, home, dataDir, q) && host.realpath(q) == Some(p) {
      assert q in LexicalNeverBound(host, home, dataDir);
    }
  }

  /** A root is bindable exactly when neither it nor anything in it is the operator
      home, and no secret path, as named or as it resolves, contains it or is in it. */
  lemma BindableIff(host: Host, root: Path, home: Path, dataDir: Path)
    requires root != [] && home != []
    requires forall nb :: IsNeverBound(host, home, dataDir, nb) ==> nb != []
    ensures Bindable(host, root, home, dataDir) <==>
      && !(root <= home)
      && forall nb :: IsNeverBound(host, home, dataDir, nb) ==> !(root <= nb) && !(nb <= root)
  {
    WithinIsPrefix(root, home);
    forall nb | IsNeverBound(host, home, dataDir, nb) ensures Overlap(root, nb) <==> root <= nb || nb <= root {
      OverlapIsComparable(root, nb);
    }
  }
}
