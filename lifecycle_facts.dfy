/** What the lifecycle commands of libvirt-compose.py guarantee: how `stop` polls, what `rm`
    and the clean-up remove, the rollback of `build`, the `finally` of `run`, and which
    services `up` and `down` touch. */
module LifecycleFacts {
  import opened Text
  import opened Wrappers
  import opened Dicts
  import opened Hypervisor
  import opened Listing
  import opened Executor
  import opened ExecutorFacts
  import opened Args
  import opened Lifecycle
  import opened Storage

  /** The domain is defined and running. */
  predicate Active(st: State, name: string) {
    name in st.defined && name in st.running
  }

  /** `k` running-state listings in a row. */
  function Listings(k: nat): (cs: seq<Call>)
    ensures |cs| == k
  {
    if k == 0 then [] else [ListRunning] + Listings(k - 1)
  }

  /** `n` running-state checks in a row, starting from `w`, all find the name listed. */
  predicate StillUp(env: Env, w: World, name: string, n: nat)
    decreases n
  {
    n == 0 || (IsRunningSpec(env, w, name).1 && StillUp(env, IsRunningSpec(env, w, name).0, name, n - 1))
  }

  // ---------------------------------------------------------------------------
  // The single commands, one at a time

  lemma RunShutdown(env: Env, w: World, name: string)
    ensures var w' := Run(env, w, Shutdown(name)).0;
      w'.st.defined == w.st.defined && w'.st.running == w.st.running && w'.st.volumes == w.st.volumes
  {
  }

  lemma RunDestroy(env: Env, w: World, name: string)
    ensures var (w', o) := Run(env, w, Destroy(name));
      w'.st.defined == w.st.defined && w'.st.volumes == w.st.volumes
      && w'.st.running == w.st.running - (if o.Done? then {name} else {})
      && (o.Done? || |w.trace| !in env.faults ==> name !in w'.st.running)
  {
  }

  lemma RunUndefine(env: Env, w: World, name: string)
    ensures var (w', o) := Run(env, w, Undefine(name));
      w'.st.volumes == w.st.volumes && w'.st.running == w.st.running
      && w'.st.defined == (if o.Done? then Without(w.st.defined, name) else w.st.defined)
      && (o.Done? || (|w.trace| !in env.faults && name !in w.st.running) ==> name !in w'.st.defined)
  {
  }

  lemma RunVolDelete(env: Env, w: World, name: string)
    ensures var (w', o) := Run(env, w, VolDelete(name));
      w'.st.defined == w.st.defined && w'.st.running == w.st.running
      && w'.st.volumes == (if o.Done? then Without(w.st.volumes, name) else w.st.volumes)
      && (o.Done? || |w.trace| !in env.faults ==> name !in w'.st.volumes)
  {
  }

  lemma RunStart(env: Env, w: World, name: string)
    ensures var (w', o) := Run(env, w, Start(name));
      w'.st.defined == w.st.defined && w'.st.volumes == w.st.volumes
      && (o.Done? <==> |w.trace| !in env.faults && name in w.st.defined && name !in w.st.running)
      && (o.Done? ==> Active(w'.st, name))
  {
  }

  lemma RunDestroyTrace(env: Env, w: World, name: string)
    ensures Check(env, w, Destroy(name)).0.trace == w.trace + [Destroy(name)]
  {
  }

  /** A listing of the running domains that does not show the name proves the domain is not
      running: substring membership can over-report but never misses. */
  lemma NotListedNotActive(st: State, name: string)
    ensures !HasSubstring(name, RenderRunning(st)) ==> !Active(st, name)
  {
    if Active(st, name) {
      RunningReported(st, name);
    }
  }

  // ---------------------------------------------------------------------------
  // stop

  /** One round of the poll loop. */
  lemma PollStep(env: Env, w: World, name: string, n: nat)
    requires n > 0
    ensures var (w1, up) := IsRunningSpec(env, w, name);
      PollSpec(env, w, name, n) == (if up then PollSpec(env, w1, name, n - 1) else (w1, Ok))
      && StillUp(env, w, name, n) == (up && StillUp(env, w1, name, n - 1))
  {
  }

  /** The poll loop: checks until one finds the domain gone, or exactly `n` checks and a
      destroy when every one of them still found it. */
  lemma {:induction false} PollCalls(env: Env, w: World, name: string, n: nat) returns (k: nat)
    ensures var (w', s) := PollSpec(env, w, name, n);
      k <= n
      && (StillUp(env, w, name, n) ==> k == n && w'.trace == w.trace + Listings(n) + [Destroy(name)])
      && (!StillUp(env, w, name, n) ==> 0 < k && w'.trace == w.trace + Listings(k) && s == Ok)
    decreases n
  {
    if n == 0 {
      k := 0;
      RunDestroyTrace(env, w, name);
    } else {
      var (w1, up) := IsRunningSpec(env, w, name);
      PollStep(env, w, name, n);
      if !up {
        k := 1;
        assert Listings(1) == [ListRunning];
      } else {
        var j := PollCalls(env, w1, name, n - 1);
        k := j + 1;
        assert Listings(k) == [ListRunning] + Listings(j);
        AppendAssoc(w.trace, [ListRunning], Listings(j));
        AppendAssoc(w.trace, [ListRunning], Listings(j) + [Destroy(name)]);
        AppendAssoc(w.trace, [ListRunning] + Listings(j), [Destroy(name)]);
      }
    }
  }

  /** `stop` with timeout `t`: nothing but the check when the domain is not listed as running;
      otherwise exactly one shutdown, then at most `t` checks, and a destroy exactly when all
      `t` checks still found the domain — so a timeout of 0 always destroys. */
  lemma StopCalls(env: Env, w: World, name: string, timeout: int) returns (k: nat)
    ensures var (w1, up) := IsRunningSpec(env, w, name);
      var (w2, s2) := Check(env, w1, Shutdown(name));
      var n: nat := if timeout < 0 then 0 else timeout;
      var (w', s) := StopSpec(env, w, name, timeout);
      (!up ==> w'.trace == w.trace + [ListRunning] && s == Ok)
      && (up && s2.Raised? ==> w'.trace == w.trace + [ListRunning, Shutdown(name)] && s == s2)
      && (up && s2.Ok? && StillUp(env, w2, name, n) ==>
            w'.trace == w.trace + [ListRunning, Shutdown(name)] + Listings(n) + [Destroy(name)])
      && (up && s2.Ok? && !StillUp(env, w2, name, n) ==>
            0 < k <= n && w'.trace == w.trace + [ListRunning, Shutdown(name)] + Listings(k) && s == Ok)
  {
    var (w1, up) := IsRunningSpec(env, w, name);
    var (w2, s2) := Check(env, w1, Shutdown(name));
    var n: nat := if timeout < 0 then 0 else timeout;
    k := 0;
    if up && s2.Ok? {
      k := PollCalls(env, w2, name, n);
      assert w2.trace == w.trace + [ListRunning, Shutdown(name)];
    }
  }

  /** `stop` leaves the definitions and the pool alone, reports only a failing shutdown or
      destroy, and when it returns the domain is not running. */
  lemma {:induction false} PollHalts(env: Env, w: World, name: string, n: nat)
    ensures var (w', s) := PollSpec(env, w, name, n);
      w'.st.defined == w.st.defined && w'.st.volumes == w.st.volumes && w'.st.running <= w.st.running
      && (s.Ok? ==> !Active(w'.st, name))
      && (s.Raised? ==> s.error == CallFailed(Destroy(name)))
    decreases n
  {
    if n == 0 {
      RunDestroy(env, w, name);
    } else {
      var (w1, up) := IsRunningSpec(env, w, name);
      NotListedNotActive(w1.st, name);
      if up {
        PollHalts(env, w1, name, n - 1);
      }
    }
  }

  lemma StopHalts(env: Env, w: World, name: string, timeout: int)
    ensures var (w', s) := StopSpec(env, w, name, timeout);
      w'.st.defined == w.st.defined && w'.st.volumes == w.st.volumes && w'.st.running <= w.st.running
      && (s.Ok? ==> !Active(w'.st, name))
      && (s.Raised? ==> s.error == CallFailed(Shutdown(name)) || s.error == CallFailed(Destroy(name)))
  {
    var (w1, up) := IsRunningSpec(env, w, name);
    NotListedNotActive(w1.st, name);
    if up {
      RunShutdown(env, w1, name);
      var (w2, s2) := Check(env, w1, Shutdown(name));
      PollHalts(env, w2, name, if timeout < 0 then 0 else timeout);
    }
  }

  /** A running guest that is not shutting down stays listed, check after check. */
  lemma {:induction false} StillUpWhileRunning(env: Env, w: World, name: string, n: nat)
    requires Active(w.st, name) && name !in w.st.pending
    ensures StillUp(env, w, name, n)
    decreases n
  {
    if n > 0 {
      var w1 := IsRunningSpec(env, w, name).0;
      assert Active(w1.st, name) && name !in w1.st.pending;
      RunningReported(w1.st, name);
      StillUpWhileRunning(env, w1, name, n - 1);
    }
  }

  /** A guest that ignores the ACPI shutdown is destroyed after exactly `timeout` checks. */
  lemma IgnoredShutdownDestroys(env: Env, w: World, name: string, timeout: nat)
    requires Active(w.st, name) && name !in w.st.pending && name !in env.graceful
    requires |w.trace| + 1 !in env.faults
    ensures StopSpec(env, w, name, timeout).0.trace
      == w.trace + [ListRunning, Shutdown(name)] + Listings(timeout) + [Destroy(name)]
  {
    var (w1, up) := IsRunningSpec(env, w, name);
    RunningReported(w1.st, name);
    var (w2, s2) := Check(env, w1, Shutdown(name));
    assert Active(w2.st, name) && name !in w2.st.pending;
    StillUpWhileRunning(env, w2, name, timeout);
    var _ := StopCalls(env, w, name, timeout);
  }

  // ---------------------------------------------------------------------------
  // rm and the clean-up

  /** Nothing was defined, started or created: every domain, running domain and volume of
      `st'` was already there in `st`. */
  predicate Shrinks(st: State, st': State) {
    (forall x :: x in st'.defined ==> x in st.defined) && st'.running <= st.running
    && (forall x :: x in st'.volumes ==> x in st.volumes)
  }

  /** `rm` removes the definition and then the volume of the domain and nothing else, and
      reports only a failure of one of the two. */
  lemma RmRemoves(env: Env, w: World, name: string)
    ensures var (w', s) := RmSpec(env, w, name);
      Shrinks(w.st, w'.st) && w'.st.running == w.st.running
      && (s.Ok? ==> w'.st.defined == Without(w.st.defined, name) && w'.st.volumes == Without(w.st.volumes, name))
      && (s.Raised? ==> s.error == CallFailed(Undefine(name)) || s.error == CallFailed(VolDelete(name)))
  {
    RunUndefine(env, w, name);
    RunVolDelete(env, Run(env, w, Undefine(name)).0, name);
  }

  /** The unchecked clean-up never adds anything, and when none of its three commands fails
      the domain is gone: not running, not defined, and without a volume. */
  lemma CleanupClears(env: Env, w: World, name: string)
    ensures var w' := CleanupSpec(env, w, name);
      Shrinks(w.st, w'.st)
      && (Quiet(env, w) ==> name !in w'.st.running && name !in w'.st.defined && name !in w'.st.volumes)
  {
    RunDestroy(env, w, name);
    var w1 := Run(env, w, Destroy(name)).0;
    RunUndefine(env, w1, name);
    var w2 := Run(env, w1, Undefine(name)).0;
    RunVolDelete(env, w2, name);
  }

  // ---------------------------------------------------------------------------
  // build

  /** `virt-install` defines the domain its `--name` names, and runs it when the command line
      boots. */
  lemma RunDefine(env: Env, w: World, argv: seq<string>)
    ensures var (w', o) := Run(env, w, Define(argv));
      o.Done? ==> (DomainName(argv).Some? && DomainName(argv).value in w'.st.defined
                   && (Boots(argv) ==> DomainName(argv).value in w'.st.running))
  {
  }

  /** A `virt-install` command line whose first flag is `--name` with a plain argument
      defines that name. */
  lemma FirstFlagName(name: string, args: Dict<Item>)
    requires args != [] && args[0] == ("name", Atom(Str(name))) && !IsOption(name)
    ensures DomainName(Argv(LibvirtFlags(args))) == Some(name)
  {
    var fs := LibvirtFlags(args);
    assert ItemFlag(Atom(Str(name))) == Some(Some(name));
    assert fs == [("name", Some(name))] + LibvirtFlags(args[1..]);
    var argv := Argv(fs);
    assert fs[0] == ("name", Some(name)) && fs[1..] == LibvirtFlags(args[1..]);
    assert "--" + "name" == "--name";
    assert argv == ["--name"] + [name] + Argv(fs[1..]);
    assert argv == ["--name", name] + Argv(fs[1..]);
    assert ("--name")[2..] == "name";
    assert argv[2..] == Argv(fs[1..]);
    assert ParseArgv(argv) == [("name", Some(name))] + ParseArgv(argv[2..]);
  }

  /** Whatever the installer, `virt-install` defines the domain named by `build`. */
  lemma InstallDefines(env: Env, w: World, name: string, bf: BuildFile, cpus: Option<nat>, source: string)
    requires !IsOption(name)
    ensures var (w', s) := InstallSpec(env, w, name, BuildArgs(name, bf, cpus), bf.installer, source);
      s.Ok? ==> name in w'.st.defined
  {
    var args := BuildArgs(name, bf, cpus);
    match bf.installer
    case CDRom(size) =>
      var (w1, o1) := Run(env, w, VolPath(source));
      if o1.Done? {
        var (w2, s2) := Check(env, w1, VolCreate(name, size, "raw"));
        var a := Set(args, "cdrom", Atom(Str(o1.text)));
        assert a[0] == args[0];
        FirstFlagName(name, a);
        RunDefine(env, w2, Argv(LibvirtFlags(a)));
      }
    case Disk =>
      var a := DiskArgs(args);
      assert Set(args, "import", Atom(Bool(true)))[0] == args[0];
      assert a[0] == args[0];
      FirstFlagName(name, a);
      RunDefine(env, w, Argv(LibvirtFlags(a)));
  }

  /** Whether an entry writes its `--key` at all. */
  predicate Writes(a: Dict<Item>, k: string) {
    var v := Get(a, k);
    v.Some? && ItemFlag(v.value).Some?
  }

  /** A `virt-install` command line from entries without repeated keys, none of whose texts
      looks like an option, runs the domain unless it writes both `--import` and `--noreboot`. */
  lemma LibvirtBoots(a: Dict<Item>)
    requires Distinct(a) && forall i :: 0 <= i < |a| ==> PlainItem(a[i].1)
    requires !(Writes(a, "import") && Writes(a, "noreboot"))
    ensures Boots(Argv(LibvirtFlags(a)))
  {
    PlainLibvirtFlags(a);
    ParseArgvRoundTrip(LibvirtFlags(a));
    LibvirtFlagsGet(a, "import");
    LibvirtFlagsGet(a, "noreboot");
  }

  const BuildKeys: seq<string> := ["name", "memory", "vcpus", "noreboot", "os-variant", "boot", "disk", "noautoconsole"]

  lemma BuildKeysDistinct()
    ensures forall i, j :: 0 <= i < j < |BuildKeys| ==> BuildKeys[i] != BuildKeys[j]
    ensures "import" !in BuildKeys
  {
    var ks := BuildKeys;
    assert |ks[0]| == 4 && |ks[1]| == 6 && |ks[2]| == 5 && |ks[3]| == 8;
    assert |ks[4]| == 10 && |ks[5]| == 4 && |ks[6]| == 4 && |ks[7]| == 13;
    assert ks[0][0] == 'n' && ks[5][0] == 'b' && ks[6][0] == 'd';
  }

  /** The entries `build` starts from have distinct keys, and no `import`. */
  lemma BuildArgsDistinct(name: string, bf: BuildFile, cpus: Option<nat>)
    ensures Distinct(BuildArgs(name, bf, cpus)) && Get(BuildArgs(name, bf, cpus), "import") == None
  {
    var a := BuildArgs(name, bf, cpus);
    assert Keys(a) == BuildKeys;
    BuildKeysDistinct();
    assert forall i :: 0 <= i < |a| ==> a[i].0 == BuildKeys[i];
  }

  lemma IntPlain(i: int)
    ensures PlainItem(Atom(Int(i)))
  {
    IntNotOption(i);
  }

  lemma VcpusPlain(bf: BuildFile, cpus: Option<nat>)
    ensures PlainItem(BuildArgs("", bf, cpus)[2].1)
  {
    if bf.vcpus.Some? {
      IntPlain(bf.vcpus.value);
    } else if cpus.Some? {
      IntPlain(cpus.value);
    }
  }

  lemma BootPlain(bf: BuildFile)
    ensures PlainItem(BuildArgs("", bf, None)[5].1)
  {
    if bf.uefi {
      InnerArgsNotOption([("firmware", Str("efi")), ("loader_secure", Str("no"))]);
    }
  }

  lemma DiskPlain(name: string)
    ensures PlainItem(Sub([("vol", Str(PoolName + "/" + name))]))
  {
    InnerArgsNotOption([("vol", Str(PoolName + "/" + name))]);
  }

  lemma StrPlain(s: string)
    requires !IsOption(s)
    ensures PlainItem(Atom(Str(s)))
  {
  }

  /** None of the texts of the entries `build` starts from looks like an option. */
  lemma BuildArgsPlain(name: string, bf: BuildFile, cpus: Option<nat>)
    requires !IsOption(name) && !IsOption(bf.os)
    ensures forall i :: 0 <= i < |BuildArgs(name, bf, cpus)| ==> PlainItem(BuildArgs(name, bf, cpus)[i].1)
  {
    var a := BuildArgs(name, bf, cpus);
    forall i | 0 <= i < |a| ensures PlainItem(a[i].1) {
      if i == 0 {
        StrPlain(name);
      } else if i == 1 {
        IntPlain(bf.memory);
      } else if i == 2 {
        VcpusPlain(bf, cpus);
        assert a[2].1 == BuildArgs("", bf, cpus)[2].1;
      } else if i == 4 {
        StrPlain(bf.os);
      } else if i == 5 {
        BootPlain(bf);
        assert a[5].1 == BuildArgs("", bf, None)[5].1;
      } else if i == 6 {
        DiskPlain(name);
      }
    }
  }

  /** A CD-ROM install runs the domain: its command line has no `--import`. */
  lemma CDRomBoots(name: string, bf: BuildFile, cpus: Option<nat>, path: string)
    requires !IsOption(name) && !IsOption(bf.os) && !IsOption(path)
    ensures Boots(Argv(LibvirtFlags(Set(BuildArgs(name, bf, cpus), "cdrom", Atom(Str(path))))))
  {
    var args := BuildArgs(name, bf, cpus);
    BuildArgsPlain(name, bf, cpus);
    BuildArgsDistinct(name, bf, cpus);
    SetKeeps(args, "cdrom", Atom(Str(path)), PlainItem);
    DistinctSet(args, "cdrom", Atom(Str(path)));
    GetSet(args, "cdrom", Atom(Str(path)), "import");
    LibvirtBoots(Set(args, "cdrom", Atom(Str(path))));
  }

  /** A disk import boots the domain: `build` turns `--noreboot` off for it. */
  lemma DiskBoots(name: string, bf: BuildFile, cpus: Option<nat>)
    requires !IsOption(name) && !IsOption(bf.os)
    ensures Boots(Argv(LibvirtFlags(DiskArgs(BuildArgs(name, bf, cpus)))))
  {
    var args := BuildArgs(name, bf, cpus);
    var a1 := Set(args, "import", Atom(Bool(true)));
    BuildArgsPlain(name, bf, cpus);
    BuildArgsDistinct(name, bf, cpus);
    SetKeeps(args, "import", Atom(Bool(true)), PlainItem);
    SetKeeps(a1, "noreboot", Atom(Bool(false)), PlainItem);
    DistinctSet(args, "import", Atom(Bool(true)));
    DistinctSet(a1, "noreboot", Atom(Bool(false)));
    GetSet(a1, "noreboot", Atom(Bool(false)), "noreboot");
    LibvirtBoots(DiskArgs(args));
  }

  /** A `virt-install` that names the domain and boots it leaves the domain running. */
  lemma DefineRuns(env: Env, w: World, name: string, argv: seq<string>)
    requires DomainName(argv) == Some(name) && Boots(argv)
    ensures var (w', s) := Check(env, w, Define(argv));
      s.Ok? ==> Active(w'.st, name)
  {
    RunDefine(env, w, argv);
  }

  lemma CDRomRuns(env: Env, w: World, name: string, bf: BuildFile, cpus: Option<nat>, path: string)
    requires !IsOption(name) && !IsOption(bf.os) && path != [] && path[0] == '/'
    ensures var argv := Argv(LibvirtFlags(Set(BuildArgs(name, bf, cpus), "cdrom", Atom(Str(path)))));
      var (w', s) := Check(env, w, Define(argv));
      s.Ok? ==> Active(w'.st, name)
  {
    var args := BuildArgs(name, bf, cpus);
    var a := Set(args, "cdrom", Atom(Str(path)));
    CDRomBoots(name, bf, cpus, path);
    assert a[0] == args[0];
    FirstFlagName(name, a);
    DefineRuns(env, w, name, Argv(LibvirtFlags(a)));
  }

  lemma DiskRuns(env: Env, w: World, name: string, bf: BuildFile, cpus: Option<nat>)
    requires !IsOption(name) && !IsOption(bf.os)
    ensures var (w', s) := Check(env, w, Define(Argv(LibvirtFlags(DiskArgs(BuildArgs(name, bf, cpus))))));
      s.Ok? ==> Active(w'.st, name)
  {
    var args := BuildArgs(name, bf, cpus);
    var a := DiskArgs(args);
    DiskBoots(name, bf, cpus);
    assert Set(args, "import", Atom(Bool(true)))[0] == args[0];
    assert a[0] == args[0];
    FirstFlagName(name, a);
    DefineRuns(env, w, name, Argv(LibvirtFlags(a)));
  }

  /** `vol-path` answers with an absolute path. */
  lemma VolPathAbsolute(env: Env, w: World, source: string)
    ensures var o := Run(env, w, VolPath(source)).1;
      o.Done? ==> o.text != [] && o.text[0] == '/'
  {
    var o := Run(env, w, VolPath(source)).1;
    if o.Done? {
      assert o.text == PoolDir + "/" + source;
      assert o.text[0] == PoolDir[0];
    }
  }

  /** Whatever the installer, the domain `virt-install` defines for `build` runs: a CD-ROM
      install runs the installer, a disk import boots. */
  lemma InstallRuns(env: Env, w: World, name: string, bf: BuildFile, cpus: Option<nat>, source: string)
    requires !IsOption(name) && !IsOption(bf.os)
    ensures var (w', s) := InstallSpec(env, w, name, BuildArgs(name, bf, cpus), bf.installer, source);
      s.Ok? ==> Active(w'.st, name)
  {
    match bf.installer
    case CDRom(size) =>
      var (w1, o1) := Run(env, w, VolPath(source));
      if o1.Done? {
        var (w2, s2) := Check(env, w1, VolCreate(name, size, "raw"));
        VolPathAbsolute(env, w, source);
        CDRomRuns(env, w2, name, bf, cpus, o1.text);
      }
    case Disk =>
      DiskRuns(env, w, name, bf, cpus);
  }

  /** Once `build` has passed `virt-install`, the domain exists. */
  lemma PrepareDefines(env: Env, w: World, name: string, bf: BuildFile, cpus: Option<nat>)
    requires !IsOption(name)
    ensures var (w', s) := PrepareSpec(env, w, name, bf, cpus);
      s.Ok? ==> name in w'.st.defined
  {
    var source := GetStorageName(bf.location);
    var (w1, s1) := EnsureSourceSpec(env, w, bf.location, source, bf.sha256);
    if s1.Ok? {
      InstallDefines(env, CleanupSpec(env, w1, name), name, bf, cpus, source);
    }
  }

  /** Once `build` has passed `virt-install`, the domain exists and runs. */
  lemma PrepareRuns(env: Env, w: World, name: string, bf: BuildFile, cpus: Option<nat>)
    requires !IsOption(name) && !IsOption(bf.os)
    ensures var (w', s) := PrepareSpec(env, w, name, bf, cpus);
      s.Ok? ==> Active(w'.st, name)
  {
    var source := GetStorageName(bf.location);
    var (w1, s1) := EnsureSourceSpec(env, w, bf.location, source, bf.sha256);
    if s1.Ok? {
      InstallRuns(env, CleanupSpec(env, w1, name), name, bf, cpus, source);
    }
  }

  /** What `run`, `build` and the rollback need of `execute`: it only adds to the trace, and
      leaves the domains and the pool alone. */
  lemma ExecuteKeeps(env: Env, w: World, name: string, actions: seq<Action>, sftp: Option<string>)
    ensures var w' := ExecuteSpec(env, w, name, actions, sftp).0;
      |w'.trace| >= |w.trace| && w'.st.defined == w.st.defined && w'.st.running == w.st.running
      && w'.st.volumes == w.st.volumes
  {
    ExecuteDiscipline(env, w, name, actions, sftp);
  }

  /** After `execute`, `build` keeps the definitions and the pool and leaves the domain
      stopped when the actions and the shutdown succeed. */
  lemma SettleBuildStops(env: Env, w: World, name: string, s1: Status)
    ensures var (w', s) := SettleBuildSpec(env, w, name, s1);
      s.Ok? ==> w'.st.defined == w.st.defined && w'.st.volumes == w.st.volumes && !Active(w'.st, name)
  {
    if s1.Ok? {
      StopHalts(env, w, name, StopTimeout);
      var (w2, s2) := StopSpec(env, w, name, StopTimeout);
      assert s2.Ok? ==> SettleBuildSpec(env, w, name, s1) == (w2, Ok);
    }
  }

  /** When the actions or the shutdown fail, `build` ends with the clean-up and raises that
      same error again: the error of `execute`, or a failed shutdown or destroy of `stop`. */
  lemma SettleBuildCleansUp(env: Env, w: World, name: string, s1: Status)
    ensures var (w', s) := SettleBuildSpec(env, w, name, s1);
      s.Raised? ==>
        |w'.trace| >= 3 && w'.trace[|w'.trace| - 3..] == [Destroy(name), Undefine(name), VolDelete(name)]
        && (s == s1 || (s1.Ok? && (s.error == CallFailed(Shutdown(name)) || s.error == CallFailed(Destroy(name)))))
  {
    var (w2, s2) := if s1.Raised? then (w, s1) else StopSpec(env, w, name, StopTimeout);
    if s1.Ok? {
      StopHalts(env, w, name, StopTimeout);
    }
    if s2.Raised? {
      var w' := CleanupSpec(env, w2, name);
      assert w'.trace[|w'.trace| - 3..] == [Destroy(name), Undefine(name), VolDelete(name)];
    }
  }

  /** Unless a command fails, a rolled-back `build` leaves no trace of the domain. */
  lemma SettleBuildClears(env: Env, w: World, name: string, s1: Status)
    ensures var (w', s) := SettleBuildSpec(env, w, name, s1);
      s.Raised? && Quiet(env, w) ==> name !in w'.st.running && name !in w'.st.defined && name !in w'.st.volumes
  {
    var (w2, s2) := if s1.Raised? then (w, s1) else StopSpec(env, w, name, StopTimeout);
    if s1.Ok? {
      var _ := StopCalls(env, w, name, StopTimeout);
    }
    assert |w2.trace| >= |w.trace|;
    if s2.Raised? {
      CleanupClears(env, w2, name);
    }
  }

  /** The `try` block of `build`: on success the domain is stopped and nothing else changed;
      on failure the clean-up ran last, the error is re-raised, and the domain is gone unless a
      command fails. */
  lemma ProvisionRollsBack(env: Env, w: World, name: string, actions: seq<Action>, sftp: Option<string>)
    ensures var (w1, s1) := ExecuteSpec(env, w, name, actions, sftp);
      var (w', s) := ProvisionSpec(env, w, name, actions, sftp);
      (s.Ok? ==> w'.st.defined == w.st.defined && w'.st.volumes == w.st.volumes && !Active(w'.st, name))
      && (s.Raised? ==>
        |w'.trace| >= 3 && w'.trace[|w'.trace| - 3..] == [Destroy(name), Undefine(name), VolDelete(name)]
        && (s == s1 || (s1.Ok? && (s.error == CallFailed(Shutdown(name)) || s.error == CallFailed(Destroy(name)))))
        && (Quiet(env, w) ==> name !in w'.st.running && name !in w'.st.defined && name !in w'.st.volumes))
  {
    ExecuteKeeps(env, w, name, actions, sftp);
    var (w1, s1) := ExecuteSpec(env, w, name, actions, sftp);
    SettleBuildStops(env, w1, name, s1);
    SettleBuildCleansUp(env, w1, name, s1);
    SettleBuildClears(env, w1, name, s1);
  }

  /** A successful `build` leaves the domain defined and shut off. */
  lemma BuildLeavesStopped(env: Env, w: World, name: string, bf: BuildFile, cpus: Option<nat>, sftp: Option<string>)
    requires !IsOption(name)
    ensures var (w', s) := BuildSpec(env, w, name, bf, cpus, sftp);
      s.Ok? ==> name in w'.st.defined && name !in w'.st.running
  {
    PrepareDefines(env, w, name, bf, cpus);
    var (w1, s1) := PrepareSpec(env, w, name, bf, cpus);
    if s1.Ok? {
      ProvisionRollsBack(env, w1, name, bf.actions, sftp);
    }
  }

  /** Without `--name`, `build dir/debian.yml` builds the domain `debian`: the file's name
      loses its last extension. */
  lemma BuildNameOfFile(dir: string, stem: string, ext: string)
    requires '/' !in stem && '/' !in ext && '.' !in ext
    requires exists i :: 0 <= i < |stem| && stem[i] != '.'
    ensures BuildName(dir + "/" + stem + "." + ext, None) == stem
  {
    var file := stem + "." + ext;
    assert file == stem + ['.'] + ext;
    assert '/' !in file;
    assert file != "." by {
      var i :| 0 <= i < |stem| && stem[i] != '.';
      assert file[i] == stem[i];
    }
    assert dir + "/" + stem + "." + ext == dir + "/" + file;
    PathNameLast(dir, file);
    ExtensionDropped(stem, ext);
  }

  /** A build file named like `.env` gives its whole name to the domain. */
  lemma BuildNameOfHiddenFile(dir: string, s: string)
    requires s != [] && '/' !in s && '.' !in s
    ensures BuildName(dir + "/" + "." + s, None) == "." + s
  {
    assert dir + "/" + "." + s == dir + "/" + ("." + s);
    assert ("." + s)[1..] == s;
    PathNameLast(dir, "." + s);
    HiddenNameKept(s);
  }

  // ---------------------------------------------------------------------------
  // run, up, down

  /** `run` stops the domain in a `finally`: once it has started the domain, the domain ends
      up not running unless the shutdown or destroy itself fails, and when the actions raise,
      `run` raises too. The definitions and the pool stay as they were. */
  lemma OperateStops(env: Env, w: World, name: string, actions: seq<Action>, sftp: Option<string>)
    ensures var (w1, s1) := Check(env, w, Start(name));
      var (w', s) := OperateSpec(env, w, name, actions, sftp);
      w'.st.defined == w.st.defined && w'.st.volumes == w.st.volumes
      && (s1.Ok? ==> !Active(w'.st, name) || s == Raised(CallFailed(Shutdown(name))) || s == Raised(CallFailed(Destroy(name))))
      && (s1.Ok? && ExecuteSpec(env, w1, name, actions, sftp).1.Raised? ==> s.Raised?)
  {
    RunStart(env, w, name);
    var (w1, s1) := Check(env, w, Start(name));
    if s1.Ok? {
      ExecuteKeeps(env, w1, name, actions, sftp);
      var (w2, s2) := ExecuteSpec(env, w1, name, actions, sftp);
      StopHalts(env, w2, name, StopTimeout);
      var (w3, s3) := StopSpec(env, w2, name, StopTimeout);
      assert OperateSpec(env, w, name, actions, sftp) == (w3, if s3.Raised? then s3 else s2);
    } else {
      assert OperateSpec(env, w, name, actions, sftp) == (w1, s1);
    }
  }

  /** Which error `run` raises once the domain has started: the `finally` lets the actions'
      error through when `stop` succeeds, and `stop`'s own error, a failed shutdown or destroy,
      replaces whatever the actions answered when it does not. */
  lemma OperateRaises(env: Env, w: World, name: string, actions: seq<Action>, sftp: Option<string>)
    ensures var (w1, s1) := Check(env, w, Start(name));
      var (w2, s2) := ExecuteSpec(env, w1, name, actions, sftp);
      var s3 := StopSpec(env, w2, name, StopTimeout).1;
      var s := OperateSpec(env, w, name, actions, sftp).1;
      s1.Ok? ==>
        (s3.Ok? ==> s == s2)
        && (s3.Raised? ==> s == s3 && (s3.error == CallFailed(Shutdown(name)) || s3.error == CallFailed(Destroy(name))))
  {
    var (w1, s1) := Check(env, w, Start(name));
    if s1.Ok? {
      var (w2, s2) := ExecuteSpec(env, w1, name, actions, sftp);
      StopHalts(env, w2, name, StopTimeout);
    }
  }

  /** `up` builds nothing for a service whose name is listed: it only starts it. */
  lemma ServiceUpSkipsBuild(env: Env, w: World, name: string, sv: Service, cpus: Option<nat>, sftp: Option<string>)
    requires HasSubstring(name, RenderAll(w.st))
    ensures ServiceUpSpec(env, w, name, sv, cpus, sftp) == Check(env, World(w.st, w.trace + [ListAll]), Start(name))
  {
  }

  /** A service `up` completes ends with its domain started by the last command. */
  lemma ServiceUpStarts(env: Env, w: World, name: string, sv: Service, cpus: Option<nat>, sftp: Option<string>)
    ensures var (w', s) := ServiceUpSpec(env, w, name, sv, cpus, sftp);
      s.Ok? ==> Active(w'.st, name) && w'.trace[|w'.trace| - 1] == Start(name)
  {
    var (w1, found) := DomainExistsSpec(env, w, name);
    var (w2, s2) := if found then (w1, Ok) else FirstUpSpec(env, w1, name, sv, cpus, sftp);
    RunStart(env, w2, name);
  }

  /** Because `up` starts every service unconditionally, it fails on a service whose domain is
      already running. */
  lemma UpOnActiveRaises(env: Env, w: World, name: string, sv: Service, cpus: Option<nat>, sftp: Option<string>)
    requires Active(w.st, name)
    ensures ServiceUpSpec(env, w, name, sv, cpus, sftp)
      == (World(w.st, w.trace + [ListAll, Start(name)]), Raised(CallFailed(Start(name))))
  {
    DefinedReported(w.st, name);
    ServiceUpSkipsBuild(env, w, name, sv, cpus, sftp);
    RunStart(env, World(w.st, w.trace + [ListAll]), name);
    assert w.trace + [ListAll] + [Start(name)] == w.trace + [ListAll, Start(name)];
  }

  /** `down` does nothing but the listing for a service whose name is not listed. */
  lemma ServiceDownSkips(env: Env, w: World, name: string, volumes: bool)
    requires !HasSubstring(name, RenderAll(w.st))
    ensures ServiceDownSpec(env, w, name, volumes) == (World(w.st, w.trace + [ListAll]), Ok)
  {
  }

  /** One service of `down` adds nothing, keeps definitions and volumes without `volumes`,
      and when it completes the domain is not running, and with `volumes` not defined either;
      the volume is deleted when the domain was listed. */
  lemma ServiceDownHalts(env: Env, w: World, name: string, volumes: bool)
    ensures var (w', s) := ServiceDownSpec(env, w, name, volumes);
      Shrinks(w.st, w'.st)
      && (!volumes ==> w'.st.defined == w.st.defined && w'.st.volumes == w.st.volumes)
      && (s.Ok? ==> !Active(w'.st, name))
      && (s.Ok? && volumes ==> name !in w'.st.defined)
      && (s.Ok? && volumes && HasSubstring(name, RenderAll(w.st)) ==> name !in w'.st.volumes)
  {
    var (w1, found) := DomainExistsSpec(env, w, name);
    if !found {
      if name in w.st.defined {
        DefinedReported(w.st, name);
      }
    } else {
      StopHalts(env, w1, name, StopTimeout);
      var (w2, s2) := StopSpec(env, w1, name, StopTimeout);
      if s2.Ok? && volumes {
        RmRemoves(env, w2, name);
      }
    }
  }

  /** When `down` completes, no service's domain is running, and with `volumes` none is
      defined; without `volumes` no definition or volume changes. */
  lemma {:induction false} DownHalts(env: Env, w: World, names: seq<string>, volumes: bool)
    ensures var (w', s) := DownSpec(env, w, names, volumes);
      Shrinks(w.st, w'.st)
      && (!volumes ==> w'.st.defined == w.st.defined && w'.st.volumes == w.st.volumes)
      && (s.Ok? ==> forall n :: n in names ==> !Active(w'.st, n) && (volumes ==> n !in w'.st.defined))
    decreases |names|
  {
    if names != [] {
      ServiceDownHalts(env, w, names[0], volumes);
      var (w1, s1) := ServiceDownSpec(env, w, names[0], volumes);
      if s1.Ok? {
        DownHalts(env, w1, names[1..], volumes);
        assert forall n :: n in names ==> n == names[0] || n in names[1..];
      }
    }
  }
}
