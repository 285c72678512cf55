/** What the commands of virt_compose.py guarantee: the decision of `build_image`, the gates
    and defaults of `create_machine`, the idempotence of `start_machine`, `destroy_machine` and
    `create_machine`, what the batch commands leave behind, and the image lookup of `create`. */
module ComposeFacts {
  import opened Text
  import opened Wrappers
  import opened Dicts
  import opened Hypervisor
  import opened Listing
  import opened Args
  import opened Lifecycle
  import opened LifecycleFacts
  import opened Compose

  // ---------------------------------------------------------------------------
  // build_image

  /** Packer runs exactly when the output is missing or `force` is set, and the flag returned
      is that decision. None comes back without an error only under a non-empty `only`, with
      the output still missing; otherwise a result names the output, which then exists. */
  lemma BuildImageDecision(env: Env, w: World, image: Image, force: bool, only: Option<string>)
    ensures var (w', s, r) := BuildImageSpec(env, w, image, force, only);
      var build := image.output !in w.st.files || force;
      (!build <==> w'.trace == w.trace)
      && (build ==> |w'.trace| > |w.trace| && w'.trace[|w.trace|] == PackerInit(image.packerfile))
      && (r.Some? ==> s.Ok? && r.value == Built(image.output, build) && image.output in w'.st.files)
      && (s.Ok? && r.None? ==> only.Some? && only.value != [] && image.output !in w'.st.files)
      && (s.Raised? ==> r.None? && (s.error.CallFailed? || s.error == AssertionFailed))
  {
  }

  /** Without `only`, a successful `build_image` always returns a result: the assertion of
      `create` on it cannot fail. */
  lemma BuildImageWithoutOnly(env: Env, w: World, image: Image, force: bool)
    ensures var (w', s, r) := BuildImageSpec(env, w, image, force, None);
      s.Ok? ==> r.Some?
  {
  }

  /** `build_image` only adds files. */
  lemma BuildImageAdds(env: Env, w: World, image: Image, force: bool, only: Option<string>)
    ensures var (w', s, r) := BuildImageSpec(env, w, image, force, only);
      w.st.files <= w'.st.files && w'.st.defined == w.st.defined && w'.st.volumes == w.st.volumes
      && w'.st.running == w.st.running
  {
    if image.output !in w.st.files || force {
      var (w1, s1) := Check(env, w, PackerInit(image.packerfile));
      assert w1.st == w.st;
      if s1.Ok? {
        var w2 := Check(env, w1, PackerBuild(image.packerfile, OnlyFlag(only))).0;
        assert w1.st.files <= w2.st.files && w2.st.defined == w1.st.defined && w2.st.volumes == w1.st.volumes
          && w2.st.running == w1.st.running;
      }
    }
  }

  // ---------------------------------------------------------------------------
  // create_machine

  /** The default `create_machine` gives a key the machine does not set. */
  function Default(name: string, cpus: Option<nat>, k: string): Option<Value> {
    if k == "name" then Some(One(Atom(Str(name))))
    else if k == "vcpus" then Some(One(Atom(if cpus.Some? then Int(cpus.value) else Null)))
    else if k == "import" || k == "noautoconsole" || k == "noreboot" then Some(One(Atom(Null)))
    else if k == "disk" then Some(One(Sub([("vol", Str(PoolName + "/" + name))])))
    else None
  }

  /** Keys the machine sets keep their values; the six others get their defaults: the name,
      the core count, bare `import`, `noautoconsole` and `noreboot`, and the pool volume of
      that name as the disk. */
  lemma MachineDefaultsGet(name: string, machine: Dict<Value>, cpus: Option<nat>, k: string)
    ensures Get(MachineDefaults(name, machine, cpus), k) ==
      if Get(machine, k).Some? then Get(machine, k) else Default(name, cpus, k)
  {
    var m1 := SetDefault(machine, "name", One(Atom(Str(name))));
    var m2 := SetDefault(m1, "vcpus", One(Atom(if cpus.Some? then Int(cpus.value) else Null)));
    var m3 := SetDefault(m2, "import", One(Atom(Null)));
    var m4 := SetDefault(m3, "noautoconsole", One(Atom(Null)));
    var m5 := SetDefault(m4, "noreboot", One(Atom(Null)));
    GetSetDefault(machine, "name", One(Atom(Str(name))), k);
    GetSetDefault(m1, "vcpus", One(Atom(if cpus.Some? then Int(cpus.value) else Null)), k);
    GetSetDefault(m2, "import", One(Atom(Null)), k);
    GetSetDefault(m3, "noautoconsole", One(Atom(Null)), k);
    GetSetDefault(m4, "noreboot", One(Atom(Null)), k);
    GetSetDefault(m5, "disk", One(Sub([("vol", Str(PoolName + "/" + name))])), k);
    GetSetDefault(machine, "name", One(Atom(Str(name))), "vcpus");
    GetSetDefault(machine, "name", One(Atom(Str(name))), "import");
  }

  lemma DistinctSetDefault<V>(d: Dict<V>, k: string, v: V)
    requires Distinct(d)
    ensures Distinct(SetDefault(d, k, v))
  {
    if k !in Keys(d) {
      var r := d + [(k, v)];
      forall i, j | 0 <= i < j < |r| ensures r[i].0 != r[j].0 {
        if j == |d| {
          assert r[i].0 == Keys(d)[i];
        }
      }
    }
  }

  lemma DistinctDefaults(name: string, machine: Dict<Value>, cpus: Option<nat>)
    requires Distinct(machine)
    ensures Distinct(MachineDefaults(name, machine, cpus))
  {
    var m1 := SetDefault(machine, "name", One(Atom(Str(name))));
    var m2 := SetDefault(m1, "vcpus", One(Atom(if cpus.Some? then Int(cpus.value) else Null)));
    var m3 := SetDefault(m2, "import", One(Atom(Null)));
    var m4 := SetDefault(m3, "noautoconsole", One(Atom(Null)));
    var m5 := SetDefault(m4, "noreboot", One(Atom(Null)));
    DistinctSetDefault(machine, "name", One(Atom(Str(name))));
    DistinctSetDefault(m1, "vcpus", One(Atom(if cpus.Some? then Int(cpus.value) else Null)));
    DistinctSetDefault(m2, "import", One(Atom(Null)));
    DistinctSetDefault(m3, "noautoconsole", One(Atom(Null)));
    DistinctSetDefault(m4, "noreboot", One(Atom(Null)));
    DistinctSetDefault(m5, "disk", One(Sub([("vol", Str(PoolName + "/" + name))])));
  }

  /** `args_map_expand` writes the first entry of a key. */
  lemma {:induction false} GetScalarFlags(m: Dict<Scalar>, k: string)
    ensures Get(ScalarFlags(m), k) ==
      match Get(m, k) case None => None case Some(v) => Some(if v == Null then None else Some(Repr(v)))
  {
    if m != [] {
      GetScalarFlags(m[1..], k);
      assert ScalarFlags(m)[1..] == ScalarFlags(m[1..]);
    }
  }

  /** The `virt-install` command line of the machine defines the domain under the machine's
      name. */
  predicate NamesItself(name: string, machine: Dict<Value>, cpus: Option<nat>) {
    DomainName(MachineArgv(name, machine, cpus)) == Some(name)
  }

  /** An argument map whose `name` is one plain string gives a command line that defines
      the domain under that string. */
  lemma ArgvNamed(md: Dict<Value>, name: string)
    requires Distinct(md) && Get(md, "name") == Some(One(Atom(Str(name))))
    requires PlainArguments(ScalarFlags(LastItems(md)))
    ensures DomainName(Argv(ScalarFlags(Comprehension([], md)))) == Some(name)
  {
    var fs := ScalarFlags(LastItems(md));
    ArgsMapToListRoundTrip(md);
    assert Get(LastItems(md), "name") == Some(Str(name)) by {
      LastItemsGet(md, "name");
      assert ItemsOf(One(Atom(Str(name)))) == [Atom(Str(name))];
    }
    GetScalarFlags(LastItems(md), "name");
    assert Get(fs, "name") == Some(Some(name));
  }

  /** A machine that does not set `name` and whose arguments do not look like options is
      defined under the machine's name. */
  lemma MachineArgvName(name: string, machine: Dict<Value>, cpus: Option<nat>)
    requires Distinct(machine) && "name" !in Keys(machine)
    requires PlainArguments(ScalarFlags(LastItems(MachineDefaults(name, machine, cpus))))
    ensures NamesItself(name, machine, cpus)
  {
    DistinctDefaults(name, machine, cpus);
    MachineDefaultsGet(name, machine, cpus, "name");
    ArgvNamed(MachineDefaults(name, machine, cpus), name);
  }

  /** Words taken from a list of words, plus possibly one more word, are words. */
  lemma AllWordsWithin(a: seq<string>, b: seq<string>, extra: string)
    requires AllWords(a) && IsWord(extra)
    requires forall x :: x in b ==> x in a || x == extra
    ensures AllWords(b)
  {
    forall i | 0 <= i < |b| ensures IsWord(b[i]) {
      assert b[i] in b;
      if b[i] != extra {
        var j :| 0 <= j < |a| && a[j] == b[i];
      }
    }
  }

  /** With no guest shutting down, a running-state listing lets no time pass. */
  lemma TickIdle(st: State)
    requires st.pending == map[]
    ensures Tick(st) == st
  {
    assert Tick(st).pending.Keys == {};
  }

  lemma RunDefineAdds(env: Env, w: World, argv: seq<string>)
    ensures var (w', o) := Run(env, w, Define(argv));
      w'.st.volumes == w.st.volumes && w'.st.running >= w.st.running
      && w'.st.defined == (if o.Done? then w.st.defined + [DomainName(argv).value] else w.st.defined)
      && (o.Done? ==> DomainName(argv).Some?)
  {
  }

  /** The last two commands of the upload only append to the trace. */
  lemma StoreAppends(env: Env, w: World, name: string, path: string, size: string, format: string)
    ensures var w' := StoreSpec(env, w, name, path, size, format).0;
      w'.trace == w.trace + [VolCreate(name, size, format)]
      || w'.trace == w.trace + [VolCreate(name, size, format)] + [VolUpload(name, path)]
  {
  }

  /** The upload of `create_machine` (and of libvirt-compose.py) starts with the size query. */
  lemma UploadStarts(env: Env, w: World, name: string, path: string)
    ensures var (w', s) := UploadSpec(env, w, name, path);
      |w'.trace| > |w.trace| && w'.trace[|w.trace|] == ImgInfo(path, VirtualSize)
  {
    var size := ImgInfo(path, VirtualSize);
    var (w1, o1) := Run(env, w, size);
    if o1.Done? {
      var format := ImgInfo(path, Format);
      var (w2, o2) := Run(env, w1, format);
      if o2.Done? {
        StoreAppends(env, w2, name, path, o1.text, o2.text);
      }
    }
  }

  /** `b` starts with `a`. */
  predicate Extends(a: seq<Call>, b: seq<Call>) {
    |b| >= |a| && b[..|a|] == a
  }

  lemma ExtendsTrans(a: seq<Call>, b: seq<Call>, c: seq<Call>)
    requires Extends(a, b) && Extends(b, c)
    ensures Extends(a, c)
  {
    assert c[..|a|] == c[..|b|][..|a|];
  }

  lemma RunExtends(env: Env, w: World, c: Call)
    ensures Extends(w.trace, Run(env, w, c).0.trace)
  {
    assert (w.trace + [c])[..|w.trace|] == w.trace;
  }

  /** The upload only appends to the trace. */
  lemma UploadExtends(env: Env, w: World, name: string, path: string)
    ensures var (w', s) := UploadSpec(env, w, name, path);
      |w'.trace| >= |w.trace| && w'.trace[..|w.trace|] == w.trace
  {
    var size := ImgInfo(path, VirtualSize);
    var (w1, o1) := Run(env, w, size);
    RunExtends(env, w, size);
    if o1.Done? {
      var format := ImgInfo(path, Format);
      var (w2, o2) := Run(env, w1, format);
      RunExtends(env, w1, format);
      ExtendsTrans(w.trace, w1.trace, w2.trace);
      if o2.Done? {
        var create := VolCreate(name, o1.text, o2.text);
        var w3 := Run(env, w2, create).0;
        RunExtends(env, w2, create);
        ExtendsTrans(w.trace, w2.trace, w3.trace);
        RunExtends(env, w3, VolUpload(name, path));
        ExtendsTrans(w.trace, w3.trace, Run(env, w3, VolUpload(name, path)).0.trace);
      }
    }
  }

  /** The last two commands touch only the pool and add at most the volume of that name,
      which exists after a success. */
  lemma StoreKeeps(env: Env, w: World, name: string, path: string, size: string, format: string)
    ensures var (w', s) := StoreSpec(env, w, name, path, size, format);
      w'.st.defined == w.st.defined && w'.st.running == w.st.running
      && (forall x :: x in w'.st.volumes ==> x in w.st.volumes || x == name)
      && (s.Ok? ==> name in w'.st.volumes)
  {
    RunVolCreate(env, w, name, size, format);
    var w1 := Run(env, w, VolCreate(name, size, format)).0;
    RunVolUpload(env, w1, name, path);
  }

  /** The upload touches only the pool and adds at most the volume of that name. */
  lemma UploadKeeps(env: Env, w: World, name: string, path: string)
    ensures var (w', s) := UploadSpec(env, w, name, path);
      w'.st.defined == w.st.defined && w'.st.running == w.st.running
      && (forall x :: x in w'.st.volumes ==> x in w.st.volumes || x == name)
  {
    var size := ImgInfo(path, VirtualSize);
    var (w1, o1) := Run(env, w, size);
    RunImgInfo(env, w, path, VirtualSize);
    if o1.Done? {
      var format := ImgInfo(path, Format);
      var (w2, o2) := Run(env, w1, format);
      RunImgInfo(env, w1, path, Format);
      if o2.Done? {
        StoreKeeps(env, w2, name, path, o1.text, o2.text);
      }
    }
  }

  /** `ensure_source_exists` of libvirt-compose.py: a volume already in the pool costs one
      `vol-path` and changes nothing; otherwise a success leaves the volume in the pool, and
      the only error is the failure of a command. */
  lemma EnsureSourceProvides(env: Env, w: World, location: string, name: string, sha256: string)
    ensures var (w', s) := EnsureSourceSpec(env, w, location, name, sha256);
      (name in w.st.volumes ==> w'.st == w.st && w'.trace == w.trace + [VolPath(name)] && s.Ok?)
      && (s.Ok? ==> name in w'.st.volumes)
      && (s.Raised? ==> s.error.CallFailed?)
  {
    var (w1, present) := VolumeExistsSpec(env, w, name);
    if !present {
      var (w2, s2, path) := DownloadSpec(env, w1, location);
      if s2.Ok? {
        var (w3, s3) := Check(env, w2, Checksum(sha256, path));
        if s3.Ok? {
          UploadOutcome(env, w3, name, path);
        }
      }
    }
  }

  /** After a successful upload the volume exists; the upload raises only the failure of a
      command. */
  lemma UploadOutcome(env: Env, w: World, name: string, path: string)
    ensures var (w', s) := UploadSpec(env, w, name, path);
      (s.Ok? ==> name in w'.st.volumes) && (s.Raised? ==> s.error.CallFailed?)
  {
    var size := ImgInfo(path, VirtualSize);
    var (w1, o1) := Run(env, w, size);
    if o1.Done? {
      var format := ImgInfo(path, Format);
      var (w2, o2) := Run(env, w1, format);
      if o2.Done? {
        StoreKeeps(env, w2, name, path, o1.text, o2.text);
      }
    }
  }

  lemma RunImgInfo(env: Env, w: World, path: string, f: InfoField)
    ensures Run(env, w, ImgInfo(path, f)).0.st == w.st
  {
  }

  lemma RunVolCreate(env: Env, w: World, name: string, size: string, format: string)
    ensures var (w', o) := Run(env, w, VolCreate(name, size, format));
      w'.st.defined == w.st.defined && w'.st.running == w.st.running
      && w'.st.volumes == (if o.Done? then w.st.volumes + [name] else w.st.volumes)
      && (name in w.st.volumes ==> o.Failed?)
  {
  }

  lemma RunVolUpload(env: Env, w: World, name: string, path: string)
    ensures var (w', o) := Run(env, w, VolUpload(name, path));
      w'.st == w.st && (o.Done? <==> |w.trace| !in env.faults && name in w.st.volumes)
  {
  }

  /** The first gate of `create_machine`: the volume is created and uploaded exactly when the
      pool lacks it or `force` is set. */
  lemma CreateVolumeGate(env: Env, w: World, name: string, output: string, force: bool)
    requires Clean(name) && AllWords(w.st.volumes)
    ensures var (w', s) := CreateVolumeSpec(env, w, name, output, force);
      var p := |w.trace|;
      |w'.trace| >= p + 1 && w'.trace[p] == VolList
      && (|w'.trace| > p + 1 && w'.trace[p + 1] == ImgInfo(output, VirtualSize) <==> name !in w.st.volumes || force)
  {
    VolumeExistsExact(w.st, name);
    var p := |w.trace|;
    var (w1, listed) := VolumeListedSpec(env, w, name);
    if !listed || force {
      UploadStarts(env, w1, name, output);
      UploadExtends(env, w1, name, output);
      var w' := UploadSpec(env, w1, name, output).0;
      assert w'.trace[p] == w'.trace[..p + 1][p] == w1.trace[p] == VolList;
      assert CreateVolumeSpec(env, w, name, output, force).0 == w';
    } else {
      assert CreateVolumeSpec(env, w, name, output, force) == (w1, Ok);
    }
  }

  /** The second gate: `virt-install` runs exactly when no such domain is defined or `force`
      is set. */
  lemma DefineMachineGate(env: Env, w: World, name: string, machine: Dict<Value>, force: bool, cpus: Option<nat>)
    requires Clean(name) && AllWords(w.st.defined)
    ensures var (w', s) := DefineMachineSpec(env, w, name, machine, force, cpus);
      var p := |w.trace|;
      |w'.trace| >= p + 1 && w'.trace[p] == ListAll
      && (|w'.trace| > p + 1 && w'.trace[p + 1] == Define(MachineArgv(name, machine, cpus)) <==> name !in w.st.defined || force)
  {
    MachineExistsExact(w.st, name);
    var (w1, found) := MachineExistsSpec(env, w, name);
    GateTrace(env, w, w1, MachineArgv(name, machine, cpus), !found || force);
  }

  /** The trace of a listing followed, when `go` holds, by a `virt-install`. */
  lemma GateTrace(env: Env, w: World, w1: World, argv: seq<string>, go: bool)
    requires w1.trace == w.trace + [ListAll]
    ensures var w' := if go then Check(env, w1, Define(argv)).0 else w1;
      var p := |w.trace|;
      |w'.trace| >= p + 1 && w'.trace[p] == ListAll
      && (|w'.trace| > p + 1 && w'.trace[p + 1] == Define(argv) <==> go)
  {
  }

  /** After the first half succeeds the pool holds the volume; it gained nothing else. */
  lemma CreateVolumeEstablishes(env: Env, w: World, name: string, output: string, force: bool)
    requires Clean(name) && AllWords(w.st.volumes)
    ensures var (w', s) := CreateVolumeSpec(env, w, name, output, force);
      w'.st.defined == w.st.defined && w'.st.running == w.st.running
      && (forall x :: x in w'.st.volumes ==> x in w.st.volumes || x == name)
      && AllWords(w'.st.volumes)
      && (s.Ok? ==> name in w'.st.volumes)
  {
    VolumeExistsExact(w.st, name);
    var (w1, listed) := VolumeListedSpec(env, w, name);
    if !listed || force {
      UploadKeeps(env, w1, name, output);
      UploadOutcome(env, w1, name, output);
    }
    AllWordsWithin(w.st.volumes, CreateVolumeSpec(env, w, name, output, force).0.st.volumes, name);
  }

  /** A default the machine leaves alone is written as a bare flag. */
  lemma BareDefault(name: string, machine: Dict<Value>, cpus: Option<nat>, k: string)
    requires Distinct(machine) && k !in Keys(machine) && Default(name, cpus, k) == Some(One(Atom(Null)))
    ensures Get(ScalarFlags(LastItems(MachineDefaults(name, machine, cpus))), k) == Some(None)
  {
    var md := MachineDefaults(name, machine, cpus);
    DistinctDefaults(name, machine, cpus);
    MachineDefaultsGet(name, machine, cpus, k);
    LastItemsGet(md, k);
    assert ItemsOf(One(Atom(Null))) == [Atom(Null)];
    GetScalarFlags(LastItems(md), k);
  }

  /** Unless the machine sets `import` or `noreboot` itself, its `virt-install` command line
      carries both, and so only defines the domain. */
  lemma MachineArgvDefinesOnly(name: string, machine: Dict<Value>, cpus: Option<nat>)
    requires Distinct(machine) && "import" !in Keys(machine) && "noreboot" !in Keys(machine)
    requires PlainArguments(ScalarFlags(LastItems(MachineDefaults(name, machine, cpus))))
    ensures !Boots(MachineArgv(name, machine, cpus))
  {
    DistinctDefaults(name, machine, cpus);
    ArgsMapToListRoundTrip(MachineDefaults(name, machine, cpus));
    BareDefault(name, machine, cpus, "import");
    BareDefault(name, machine, cpus, "noreboot");
  }

  lemma RunDefineOnly(env: Env, w: World, argv: seq<string>)
    requires !Boots(argv)
    ensures Run(env, w, Define(argv)).0.st.running == w.st.running
  {
  }

  /** With the default flags the second half of `create_machine` starts nothing: a domain that
      was not running is not running afterwards, which is why `up` follows `create` with
      `start`. */
  lemma DefineMachineLeavesStopped(env: Env, w: World, name: string, machine: Dict<Value>, force: bool,
                                   cpus: Option<nat>)
    requires Distinct(machine) && "import" !in Keys(machine) && "noreboot" !in Keys(machine)
    requires PlainArguments(ScalarFlags(LastItems(MachineDefaults(name, machine, cpus))))
    ensures var w' := DefineMachineSpec(env, w, name, machine, force, cpus).0;
      w'.st.running == w.st.running
  {
    var argv := MachineArgv(name, machine, cpus);
    MachineArgvDefinesOnly(name, machine, cpus);
    var (w1, found) := MachineExistsSpec(env, w, name);
    RunDefineOnly(env, w1, argv);
    if !found || force {
      assert DefineMachineSpec(env, w, name, machine, force, cpus) == Check(env, w1, Define(argv));
    } else {
      assert DefineMachineSpec(env, w, name, machine, force, cpus) == (w1, Ok);
    }
  }

  /** After the second half succeeds a domain of that name is defined; nothing else was. */
  lemma DefineMachineEstablishes(env: Env, w: World, name: string, machine: Dict<Value>, force: bool,
                                 cpus: Option<nat>)
    requires Clean(name) && AllWords(w.st.defined) && NamesItself(name, machine, cpus)
    ensures var (w', s) := DefineMachineSpec(env, w, name, machine, force, cpus);
      w'.st.volumes == w.st.volumes && w'.st.running >= w.st.running
      && (forall x :: x in w'.st.defined ==> x in w.st.defined || x == name)
      && AllWords(w'.st.defined)
      && (s.Ok? ==> name in w'.st.defined)
  {
    MachineExistsExact(w.st, name);
    var (w1, found) := MachineExistsSpec(env, w, name);
    var argv := MachineArgv(name, machine, cpus);
    RunDefineAdds(env, w1, argv);
    if !found || force {
      assert DefineMachineSpec(env, w, name, machine, force, cpus) == Check(env, w1, Define(argv));
    } else {
      assert DefineMachineSpec(env, w, name, machine, force, cpus) == (w1, Ok);
    }
    AllWordsWithin(w.st.defined, DefineMachineSpec(env, w, name, machine, force, cpus).0.st.defined, name);
  }

  /** A successful `create_machine` leaves the volume in the pool and the domain defined. */
  lemma CreateMachineEstablishes(env: Env, w: World, name: string, machine: Dict<Value>, output: string,
                                 force: bool, cpus: Option<nat>)
    requires Clean(name) && AllWords(w.st.volumes) && AllWords(w.st.defined) && NamesItself(name, machine, cpus)
    ensures var (w', s) := CreateMachineSpec(env, w, name, machine, output, force, cpus);
      AllWords(w'.st.volumes) && AllWords(w'.st.defined)
      && (s.Ok? ==> name in w'.st.volumes && name in w'.st.defined)
  {
    CreateVolumeEstablishes(env, w, name, output, force);
    var (w1, s1) := CreateVolumeSpec(env, w, name, output, force);
    if s1.Ok? {
      DefineMachineEstablishes(env, w1, name, machine, force, cpus);
    }
  }

  /** Without `force`, `create_machine` for a machine whose volume and domain exist only lists
      the pool and the domains. */
  lemma CreateMachineSkips(env: Env, w: World, name: string, machine: Dict<Value>, output: string, cpus: Option<nat>)
    requires Clean(name) && AllWords(w.st.volumes) && AllWords(w.st.defined)
    requires name in w.st.volumes && name in w.st.defined
    ensures CreateMachineSpec(env, w, name, machine, output, false, cpus) == (World(w.st, w.trace + [VolList, ListAll]), Ok)
  {
    VolumeExistsExact(w.st, name);
    MachineExistsExact(w.st, name);
    assert w.trace + [VolList] + [ListAll] == w.trace + [VolList, ListAll];
  }

  /** Once `create_machine` has succeeded, calling it again without `force` changes nothing. */
  lemma CreateMachineIdempotent(env: Env, w: World, name: string, machine: Dict<Value>, output: string,
                                force: bool, cpus: Option<nat>)
    requires Clean(name) && AllWords(w.st.volumes) && AllWords(w.st.defined) && NamesItself(name, machine, cpus)
    ensures var (w1, s1) := CreateMachineSpec(env, w, name, machine, output, force, cpus);
      s1.Ok? ==>
        CreateMachineSpec(env, w1, name, machine, output, false, cpus) == (World(w1.st, w1.trace + [VolList, ListAll]), Ok)
  {
    CreateMachineEstablishes(env, w, name, machine, output, force, cpus);
    var (w1, s1) := CreateMachineSpec(env, w, name, machine, output, force, cpus);
    if s1.Ok? {
      CreateMachineSkips(env, w1, name, machine, output, cpus);
    }
  }

  /** `force` does not remove the old volume first, so recreating a machine whose volume
      exists always fails: either a size query fails or `vol-create-as` refuses the name. */
  lemma ForceRecreateRaises(env: Env, w: World, name: string, machine: Dict<Value>, output: string, cpus: Option<nat>)
    requires name in w.st.volumes
    ensures CreateMachineSpec(env, w, name, machine, output, true, cpus).1.Raised?
  {
    var (w1, listed) := VolumeListedSpec(env, w, name);
    var size := ImgInfo(output, VirtualSize);
    var (w2, o2) := Run(env, w1, size);
    RunImgInfo(env, w1, output, VirtualSize);
    if o2.Done? {
      var format := ImgInfo(output, Format);
      var (w3, o3) := Run(env, w2, format);
      RunImgInfo(env, w2, output, Format);
      if o3.Done? {
        RunVolCreate(env, w3, name, o2.text, o3.text);
      }
    }
  }

  // ---------------------------------------------------------------------------
  // start_machine, destroy_machine

  /** A domain that is defined and running is never started again. */
  lemma StartMachineSkipsActive(env: Env, w: World, name: string)
    requires Active(Tick(w.st), name)
    ensures StartMachineSpec(env, w, name) == (World(Tick(w.st), w.trace + [ListRunning]), Ok)
  {
    RunningReported(Tick(w.st), name);
  }

  /** After a successful `start_machine` the running listing shows the name: the domain was
      started, or the name already showed. */
  lemma StartMachineShows(env: Env, w: World, name: string)
    ensures var (w', s) := StartMachineSpec(env, w, name);
      w'.st.defined == w.st.defined && w'.st.volumes == w.st.volumes
      && (s.Ok? ==> HasSubstring(name, RenderRunning(w'.st)))
      && (s.Raised? ==> s.error == CallFailed(Start(name)))
  {
    var (w1, up) := IsRunningSpec(env, w, name);
    if !up {
      RunStart(env, w1, name);
      var (w2, o2) := Run(env, w1, Start(name));
      if o2.Done? {
        RunningReported(w2.st, name);
      }
    }
  }

  /** A start leaves no guest shutting down. */
  lemma RunStartIdle(env: Env, w: World, name: string)
    requires w.st.pending == map[]
    ensures Run(env, w, Start(name)).0.st.pending == map[]
  {
  }

  /** With no guest shutting down, a second `start_machine` after a successful one only lists
      the running domains. */
  lemma StartMachineIdempotent(env: Env, w: World, name: string)
    requires w.st.pending == map[]
    ensures var (w1, s1) := StartMachineSpec(env, w, name);
      s1.Ok? ==> StartMachineSpec(env, w1, name) == (World(w1.st, w1.trace + [ListRunning]), Ok)
  {
    TickIdle(w.st);
    var (w1, up) := IsRunningSpec(env, w, name);
    if !up {
      RunStartIdle(env, w1, name);
      TickIdle(Run(env, w1, Start(name)).0.st);
      StartMachineShows(env, w, name);
    }
  }

  /** The substring check lets a stopped domain stay stopped: with `web2` running, `web`
      is not started. */
  lemma StartMachineQuirk(env: Env)
    ensures var st := State(["web2", "web"], {"web2"}, map[], [], {}, {}, map[], {});
      StartMachineSpec(env, World(st, []), "web") == (World(st, [ListRunning]), Ok)
      && "web" !in st.running
  {
    var st := State(["web2", "web"], {"web2"}, map[], [], {}, {}, map[], {});
    TickIdle(st);
    assert IsPrefix("web", "web2");
    PartOfNameReportsRunning(st, "web", "web2");
    var (w1, up) := IsRunningSpec(env, World(st, []), "web");
    assert up;
    assert [] + [ListRunning] == [ListRunning];
  }

  /** The undefine half: it touches only the definitions, removes at most that name, and
      after a success the name is undefined; the call is made exactly when it is defined. */
  lemma UndefineMachineRemoves(env: Env, w: World, name: string)
    requires Clean(name) && AllWords(w.st.defined)
    ensures var (w', s) := UndefineMachineSpec(env, w, name);
      w'.st.volumes == w.st.volumes && w'.st.running == w.st.running
      && (forall x :: x in w'.st.defined ==> x in w.st.defined) && AllWords(w'.st.defined)
      && (s.Ok? ==> name !in w'.st.defined)
      && (s.Ok? ==> w'.trace == w.trace + [ListAll] + if name in w.st.defined then [Undefine(name)] else [])
      && (s.Raised? ==> s.error == CallFailed(Undefine(name)))
  {
    MachineExistsExact(w.st, name);
    var (w1, found) := MachineExistsSpec(env, w, name);
    RunUndefine(env, w1, name);
    var w' := UndefineMachineSpec(env, w, name).0;
    AllWordsWithin(w.st.defined, w'.st.defined, name);
  }

  /** The volume half: it touches only the pool, removes at most that name, and after a
      success the volume is gone; the call is made exactly when the pool holds it. */
  lemma DeleteVolumeRemoves(env: Env, w: World, name: string)
    requires Clean(name) && AllWords(w.st.volumes)
    ensures var (w', s) := DeleteVolumeSpec(env, w, name);
      w'.st.defined == w.st.defined && w'.st.running == w.st.running
      && (forall x :: x in w'.st.volumes ==> x in w.st.volumes) && AllWords(w'.st.volumes)
      && (s.Ok? ==> name !in w'.st.volumes)
      && (s.Ok? ==> w'.trace == w.trace + [VolList] + if name in w.st.volumes then [VolDelete(name)] else [])
      && (s.Raised? ==> s.error == CallFailed(VolDelete(name)))
  {
    VolumeExistsExact(w.st, name);
    var (w1, listed) := VolumeListedSpec(env, w, name);
    RunVolDelete(env, w1, name);
    var w' := DeleteVolumeSpec(env, w, name).0;
    AllWordsWithin(w.st.volumes, w'.st.volumes, name);
  }

  /** `destroy_machine` only removes: afterwards neither the definition nor the volume of the
      name is left when it succeeds, and it reports only a failed undefine or volume delete. */
  lemma DestroyMachineRemoves(env: Env, w: World, name: string)
    requires Clean(name) && AllWords(w.st.volumes) && AllWords(w.st.defined)
    ensures var (w', s) := DestroyMachineSpec(env, w, name);
      Shrinks(w.st, w'.st) && w'.st.running == w.st.running
      && AllWords(w'.st.volumes) && AllWords(w'.st.defined)
      && (s.Ok? ==> name !in w'.st.defined && name !in w'.st.volumes)
      && (s.Raised? ==> s.error == CallFailed(Undefine(name)) || s.error == CallFailed(VolDelete(name)))
  {
    UndefineMachineRemoves(env, w, name);
    var (w1, s1) := UndefineMachineSpec(env, w, name);
    if s1.Ok? {
      DeleteVolumeRemoves(env, w1, name);
    }
  }

  /** A successful `destroy_machine` undefines exactly when the domain is defined and deletes
      the volume exactly when the pool holds it. */
  lemma DestroyMachineCalls(env: Env, w: World, name: string)
    requires Clean(name) && AllWords(w.st.volumes) && AllWords(w.st.defined)
    ensures var (w', s) := DestroyMachineSpec(env, w, name);
      var undefine := if name in w.st.defined then [Undefine(name)] else [];
      var delete := if name in w.st.volumes then [VolDelete(name)] else [];
      s.Ok? ==> w'.trace == w.trace + [ListAll] + undefine + [VolList] + delete
  {
    UndefineMachineRemoves(env, w, name);
    var (w1, s1) := UndefineMachineSpec(env, w, name);
    if s1.Ok? {
      DeleteVolumeRemoves(env, w1, name);
    }
  }

  /** After a successful `destroy_machine`, another one only lists the domains and the pool. */
  lemma DestroyMachineIdempotent(env: Env, w: World, name: string)
    requires Clean(name) && AllWords(w.st.volumes) && AllWords(w.st.defined)
    ensures var (w1, s1) := DestroyMachineSpec(env, w, name);
      s1.Ok? ==> DestroyMachineSpec(env, w1, name) == (World(w1.st, w1.trace + [ListAll, VolList]), Ok)
  {
    DestroyMachineRemoves(env, w, name);
    var (w1, s1) := DestroyMachineSpec(env, w, name);
    if s1.Ok? {
      MachineExistsExact(w1.st, name);
      VolumeExistsExact(w1.st, name);
      assert w1.trace + [ListAll] + [VolList] == w1.trace + [ListAll, VolList];
    }
  }

  // ---------------------------------------------------------------------------
  // The batch commands

  /** A property of the first name and of every later one holds of every name. */
  lemma EveryName(names: seq<string>, p: string -> bool)
    requires names != [] && p(names[0]) && forall i :: 0 <= i < |names[1..]| ==> p(names[1..][i])
    ensures forall i :: 0 <= i < |names| ==> p(names[i])
  {
    forall i | 0 < i < |names| ensures p(names[i]) {
      assert names[i] == names[1..][i - 1];
    }
  }

  /** With no guest shutting down, `start_machine` only adds running domains and leaves no
      guest shutting down. */
  lemma StartMachineGrows(env: Env, w: World, name: string)
    requires w.st.pending == map[]
    ensures var (w', s) := StartMachineSpec(env, w, name);
      w'.st.pending == map[] && w'.st.running >= w.st.running
  {
    TickIdle(w.st);
    var (w1, up) := IsRunningSpec(env, w, name);
    RunStartIdle(env, w1, name);
  }

  /** `start` keeps the definitions and the pool, only adds running domains, and raises only
      the failure of a start. */
  lemma {:induction false} StartAllKeeps(env: Env, w: World, names: seq<string>)
    requires w.st.pending == map[]
    ensures var (w', s) := StartAllSpec(env, w, names);
      w'.st.defined == w.st.defined && w'.st.volumes == w.st.volumes
      && w'.st.running >= w.st.running && w'.st.pending == map[]
      && (s.Raised? ==> s.error.CallFailed? && s.error.call.Start?)
    decreases |names|
  {
    if names != [] {
      StartMachineShows(env, w, names[0]);
      StartMachineGrows(env, w, names[0]);
      var (w1, s1) := StartMachineSpec(env, w, names[0]);
      if s1.Ok? {
        StartAllKeeps(env, w1, names[1..]);
      }
    }
  }

  /** `stop` keeps the definitions and the pool, and after a success none of the machines is
      defined and running. */
  lemma {:induction false} StopAllHalts(env: Env, w: World, names: seq<string>, timeout: int)
    ensures var (w', s) := StopAllSpec(env, w, names, timeout);
      w'.st.defined == w.st.defined && w'.st.volumes == w.st.volumes && w'.st.running <= w.st.running
      && (s.Ok? ==> forall i :: 0 <= i < |names| ==> !Active(w'.st, names[i]))
    decreases |names|
  {
    if names != [] {
      StopHalts(env, w, names[0], timeout);
      var (w1, s1) := StopSpec(env, w, names[0], timeout);
      if s1.Ok? {
        StopAllHalts(env, w1, names[1..], timeout);
        var (w', s') := StopAllSpec(env, w1, names[1..], timeout);
        if s'.Ok? {
          assert !Active(w'.st, names[0]);
          EveryName(names, n => !Active(w'.st, n));
        }
      }
    }
  }

  lemma CleanTail(names: seq<string>)
    requires names != [] && forall i :: 0 <= i < |names| ==> Clean(names[i])
    ensures forall i :: 0 <= i < |names[1..]| ==> Clean(names[1..][i])
  {
    forall i | 0 <= i < |names[1..]| ensures Clean(names[1..][i]) {
      assert names[1..][i] == names[i + 1];
    }
  }

  /** `rm` only removes, and keeps every name in the listings a word. */
  lemma {:induction false} RmAllKeeps(env: Env, w: World, names: seq<string>)
    requires forall i :: 0 <= i < |names| ==> Clean(names[i])
    requires AllWords(w.st.volumes) && AllWords(w.st.defined)
    ensures var (w', s) := RmAllSpec(env, w, names);
      Shrinks(w.st, w'.st) && w'.st.running == w.st.running
      && AllWords(w'.st.volumes) && AllWords(w'.st.defined)
    decreases |names|
  {
    if names != [] {
      assert Clean(names[0]);
      DestroyMachineRemoves(env, w, names[0]);
      var (w1, s1) := DestroyMachineSpec(env, w, names[0]);
      if s1.Ok? {
        CleanTail(names);
        RmAllKeeps(env, w1, names[1..]);
        assert RmAllSpec(env, w, names) == RmAllSpec(env, w1, names[1..]);
      }
    }
  }

  /** After a successful `rm` none of the machines has a definition or a volume left. */
  lemma {:induction false} RmAllRemoves(env: Env, w: World, names: seq<string>)
    requires forall i :: 0 <= i < |names| ==> Clean(names[i])
    requires AllWords(w.st.volumes) && AllWords(w.st.defined)
    ensures var (w', s) := RmAllSpec(env, w, names);
      s.Ok? ==> forall i :: 0 <= i < |names| ==> names[i] !in w'.st.defined && names[i] !in w'.st.volumes
    decreases |names|
  {
    if names != [] {
      assert Clean(names[0]);
      DestroyMachineRemoves(env, w, names[0]);
      var (w1, s1) := DestroyMachineSpec(env, w, names[0]);
      if s1.Ok? {
        CleanTail(names);
        RmAllKeeps(env, w1, names[1..]);
        RmAllRemoves(env, w1, names[1..]);
        var (w', s') := RmAllSpec(env, w1, names[1..]);
        assert RmAllSpec(env, w, names) == (w', s');
        if s'.Ok? {
          assert names[0] !in w'.st.defined && names[0] !in w'.st.volumes;
          EveryName(names, n => n !in w'.st.defined && n !in w'.st.volumes);
        }
      }
    }
  }

  /** After a successful `down`, none of its machines is defined or has a volume, and nothing
      was added. */
  lemma DownClears(env: Env, w: World, cf: ComposeFile, names: seq<string>, timeout: int)
    requires forall i :: 0 <= i < |Targets(names, cf)| ==> Clean(Targets(names, cf)[i])
    requires AllWords(w.st.volumes) && AllWords(w.st.defined)
    ensures var (w', s) := Compose.DownSpec(env, w, cf, names, timeout);
      var ms := Targets(names, cf);
      Shrinks(w.st, w'.st)
      && (s.Ok? ==> forall i :: 0 <= i < |ms| ==> ms[i] !in w'.st.defined && ms[i] !in w'.st.volumes)
  {
    var ms := Targets(names, cf);
    StopAllHalts(env, w, ms, timeout);
    var (w1, s1) := StopAllSpec(env, w, ms, timeout);
    if s1.Ok? {
      RmAllKeeps(env, w1, ms);
      RmAllRemoves(env, w1, ms);
    }
  }

  // ---------------------------------------------------------------------------
  // build (the command)

  /** After a successful `build` without `only`, every named image exists and its output file
      is present. */
  lemma {:induction false} BuildAllProduces(env: Env, w: World, cf: ComposeFile, names: seq<string>, force: bool)
    ensures var (w', s) := BuildAllSpec(env, w, cf, names, force, None);
      w.st.files <= w'.st.files
      && (s.Ok? ==> forall i :: 0 <= i < |names| ==>
            Get(cf.images, names[i]).Some? && Get(cf.images, names[i]).value.output in w'.st.files)
    decreases |names|
  {
    if names != [] {
      match Get(cf.images, names[0])
      case None =>
      case Some(image) =>
        BuildImageAdds(env, w, image, force, None);
        BuildImageDecision(env, w, image, force, None);
        var (w1, s1, r) := BuildImageSpec(env, w, image, force, None);
        if s1.Ok? {
          BuildAllProduces(env, w1, cf, names[1..], force);
          var (w', s') := BuildAllSpec(env, w1, cf, names[1..], force, None);
          if s'.Ok? {
            EveryName(names, n => Get(cf.images, n).Some? && Get(cf.images, n).value.output in w'.st.files);
          }
        }
    }
  }

  // ---------------------------------------------------------------------------
  // create: the image lookup

  /** The image a machine of the file names, or the error reading it raises. */
  function MachineImage(cf: ComposeFile, name: string): ImageName {
    match Get(cf.machines, name)
    case None => Unnamed(KeyError(name))
    case Some(machine) => ImageOf(machine)
  }

  /** A machine of the file whose image is a string naming an image of the file. */
  predicate Creatable(cf: ComposeFile, name: string) {
    MachineImage(cf, name).Named? && MachineImage(cf, name).image in Keys(cf.images)
  }

  /** One successful step of the first loop as written: the image stored under the machine's
      own name is built, and the loop goes on with the result stored under that name. */
  lemma BuildLoopStep(env: Env, w: World, cf: ComposeFile, ms: seq<string>, build: bool,
                      images: Dict<Built>, image: Image)
    requires ms != [] && Get(cf.machines, ms[0]).Some?
    requires ImageOf(Get(cf.machines, ms[0]).value).Named? && Get(cf.images, ms[0]) == Some(image)
    ensures var (w1, s1, r) := BuildImageSpec(env, w, image, build, None);
      s1.Ok? && r.Some? ==>
        BuildLoopSpec(env, w, cf, ms, build, images) ==
        BuildLoopSpec(env, w1, cf, ms[1..], build, Set(images, ms[0], r.value))
  {
  }

  /** As written, the first loop needs an image under each machine's own name, and stores
      results only under machine names. */
  lemma {:induction false} BuildLoopKeys(env: Env, w: World, cf: ComposeFile, ms: seq<string>, build: bool,
                                         images: Dict<Built>)
    ensures var (w', s, imgs) := BuildLoopSpec(env, w, cf, ms, build, images);
      (forall k :: k in Keys(imgs) ==> k in Keys(images) || k in ms)
      && (s.Ok? ==> forall i :: 0 <= i < |ms| ==> ms[i] in Keys(cf.images))
    decreases |ms|
  {
    if ms != [] {
      var name := ms[0];
      match Get(cf.machines, name)
      case None =>
      case Some(machine) =>
        match ImageOf(machine)
        case Unnamed(_) =>
        case Named(_) =>
          match Get(cf.images, name)
          case None =>
          case Some(image) =>
            var (w1, s1, r) := BuildImageSpec(env, w, image, build, None);
            if s1.Ok? && r.Some? {
              KeysSet(images, name, r.value);
              BuildLoopStep(env, w, cf, ms, build, images, image);
              BuildLoopKeys(env, w1, cf, ms[1..], build, Set(images, name, r.value));
              var (w', s', imgs) := BuildLoopSpec(env, w1, cf, ms[1..], build, Set(images, name, r.value));
              if s'.Ok? {
                EveryName(ms, n => n in Keys(cf.images));
              }
            }
    }
  }

  /** One step of the second loop: a successful run created its first machine from the image
      result its image name finds, and then ran successfully over the rest. */
  lemma CreateLoopHead(env: Env, w: World, cf: ComposeFile, ms: seq<string>, images: Dict<Built>,
                       force: bool, cpus: Option<nat>)
    requires ms != [] && CreateLoopSpec(env, w, cf, ms, images, force, cpus).1.Ok?
    ensures MachineImage(cf, ms[0]).Named? && MachineImage(cf, ms[0]).image in Keys(images)
    ensures var b := Get(images, MachineImage(cf, ms[0]).image).value;
      var machine := Get(cf.machines, ms[0]).value;
      CreateLoopSpec(env, CreateMachineSpec(env, w, ms[0], Remove(machine, "image"), b.output, b.built || force, cpus).0,
                     cf, ms[1..], images, force, cpus).1.Ok?
  {
    var machine := Get(cf.machines, ms[0]).value;
    var b := Get(images, MachineImage(cf, ms[0]).image).value;
  }

  /** The second loop succeeds only when every machine names, as a string, an image result it
      holds. */
  lemma {:induction false} CreateLoopNeeds(env: Env, w: World, cf: ComposeFile, ms: seq<string>, images: Dict<Built>,
                                           force: bool, cpus: Option<nat>)
    ensures CreateLoopSpec(env, w, cf, ms, images, force, cpus).1.Ok? ==>
      forall i :: 0 <= i < |ms| ==> MachineImage(cf, ms[i]).Named? && MachineImage(cf, ms[i]).image in Keys(images)
    decreases |ms|
  {
    if ms != [] && CreateLoopSpec(env, w, cf, ms, images, force, cpus).1.Ok? {
      CreateLoopHead(env, w, cf, ms, images, force, cpus);
      var b := Get(images, MachineImage(cf, ms[0]).image).value;
      var machine := Get(cf.machines, ms[0]).value;
      var w1 := CreateMachineSpec(env, w, ms[0], Remove(machine, "image"), b.output, b.built || force, cpus).0;
      CreateLoopNeeds(env, w1, cf, ms[1..], images, force, cpus);
      EveryName(ms, n => MachineImage(cf, n).Named? && MachineImage(cf, n).image in Keys(images));
    }
  }

  /** `create` as written succeeds only when every machine's name is also an image name and
      every machine's image name is also one of the machines created. */
  lemma CreateAsWrittenNeeds(env: Env, w: World, cf: ComposeFile, names: seq<string>, build: bool, force: bool,
                             cpus: Option<nat>)
    ensures var ms := Targets(names, cf);
      CreateSpec(env, w, cf, names, build, force, cpus).1.Ok? ==>
        forall i :: 0 <= i < |ms| ==>
          ms[i] in Keys(cf.images) && MachineImage(cf, ms[i]).Named? && MachineImage(cf, ms[i]).image in ms
  {
    var ms := Targets(names, cf);
    BuildLoopKeys(env, w, cf, ms, build, []);
    var (w1, s1, images) := BuildLoopSpec(env, w, cf, ms, build, []);
    if s1.Ok? {
      CreateLoopNeeds(env, w1, cf, ms, images, force, cpus);
    }
  }

  /** The discrepancy on a concrete file: machine `web` built from image `debian` raises
      `KeyError('web')` before anything is built. */
  lemma CreateLooksUpMachineName(env: Env, w: World, build: bool, force: bool, cpus: Option<nat>)
    ensures var cf := ComposeFile([("web", [("image", One(Atom(Str("debian"))))])],
                                  [("debian", Image("debian.pkr.json", "debian.qcow2", None))]);
      Creatable(cf, "web") && CreateSpec(env, w, cf, [], build, force, cpus) == (w, Raised(KeyError("web")))
  {
    var cf := ComposeFile([("web", [("image", One(Atom(Str("debian"))))])],
                          [("debian", Image("debian.pkr.json", "debian.qcow2", None))]);
    assert Keys(cf.machines) == ["web"];
    assert Targets([], cf) == ["web"];
  }

  /** `up` as written inherits the discrepancy: on the same file it raises `KeyError('web')`
      before it builds or starts anything. */
  lemma UpLooksUpMachineName(env: Env, w: World, build: bool, force: bool, cpus: Option<nat>)
    ensures var cf := ComposeFile([("web", [("image", One(Atom(Str("debian"))))])],
                                  [("debian", Image("debian.pkr.json", "debian.qcow2", None))]);
      Compose.UpSpec(env, w, cf, [], build, force, cpus) == (w, Raised(KeyError("web")))
  {
    CreateLooksUpMachineName(env, w, build, force, cpus);
  }

  /** `create_machine` fails only on a command that fails. */
  lemma CreateMachineErrors(env: Env, w: World, name: string, machine: Dict<Value>, output: string,
                            force: bool, cpus: Option<nat>)
    ensures var (w', s) := CreateMachineSpec(env, w, name, machine, output, force, cpus);
      s.Raised? ==> s.error.CallFailed?
  {
    CreateVolumeErrors(env, w, name, output, force);
    var (w1, s1) := CreateVolumeSpec(env, w, name, output, force);
    if s1.Ok? {
      var (w2, s2) := DefineMachineSpec(env, w1, name, machine, force, cpus);
      assert s2.Raised? ==> s2.error.CallFailed?;
    }
  }

  /** The first half of `create_machine` raises only the failure of a command. */
  lemma CreateVolumeErrors(env: Env, w: World, name: string, output: string, force: bool)
    ensures var (w', s) := CreateVolumeSpec(env, w, name, output, force);
      s.Raised? ==> s.error.CallFailed?
  {
    var (w0, listed) := VolumeListedSpec(env, w, name);
    if !listed || force {
      UploadOutcome(env, w0, name, output);
    }
  }

  /** The second loop fails only on a command that fails, once every machine's image result
      is at hand. */
  lemma {:induction false} CreateLoopErrors(env: Env, w: World, cf: ComposeFile, ms: seq<string>, images: Dict<Built>,
                                            force: bool, cpus: Option<nat>)
    requires forall i :: 0 <= i < |ms| ==>
      MachineImage(cf, ms[i]).Named? && MachineImage(cf, ms[i]).image in Keys(images)
    ensures var (w', s) := CreateLoopSpec(env, w, cf, ms, images, force, cpus);
      s.Raised? ==> s.error.CallFailed?
    decreases |ms|
  {
    if ms != [] {
      var machine := Get(cf.machines, ms[0]).value;
      var b := Get(images, MachineImage(cf, ms[0]).image).value;
      CreateMachineErrors(env, w, ms[0], Remove(machine, "image"), b.output, b.built || force, cpus);
      var w1 := CreateMachineSpec(env, w, ms[0], Remove(machine, "image"), b.output, b.built || force, cpus).0;
      assert forall i :: 0 <= i < |ms[1..]| ==> ms[1..][i] == ms[i + 1];
      CreateLoopErrors(env, w1, cf, ms[1..], images, force, cpus);
    }
  }

  /** One step of the corrected first loop, for a machine that names an image of the file. */
  lemma BuildLoopIntendedStep(env: Env, w: World, cf: ComposeFile, ms: seq<string>, build: bool,
                              images: Dict<Built>)
    requires ms != [] && Creatable(cf, ms[0])
    ensures var img := MachineImage(cf, ms[0]).image;
      var (w1, s1, r) := BuildImageSpec(env, w, Get(cf.images, img).value, build, None);
      BuildLoopIntendedSpec(env, w, cf, ms, build, images) ==
        if s1.Raised? then (w1, s1, images)
        else if r.None? then (w1, Raised(AssertionFailed), images)
        else BuildLoopIntendedSpec(env, w1, cf, ms[1..], build, Set(images, img, r.value))
  {
  }

  /** The corrected first loop keeps every image result it was given. */
  lemma {:induction false} BuildLoopIntendedKeeps(env: Env, w: World, cf: ComposeFile, ms: seq<string>, build: bool,
                                                  images: Dict<Built>)
    requires forall i :: 0 <= i < |ms| ==> Creatable(cf, ms[i])
    ensures forall k :: k in Keys(images) ==> k in Keys(BuildLoopIntendedSpec(env, w, cf, ms, build, images).2)
    decreases |ms|
  {
    if ms != [] {
      var img := MachineImage(cf, ms[0]).image;
      var image := Get(cf.images, img).value;
      BuildLoopIntendedStep(env, w, cf, ms, build, images);
      var (w1, s1, r) := BuildImageSpec(env, w, image, build, None);
      if s1.Ok? && r.Some? {
        KeysSet(images, img, r.value);
        assert forall i :: 0 <= i < |ms[1..]| ==> ms[1..][i] == ms[i + 1];
        BuildLoopIntendedKeeps(env, w1, cf, ms[1..], build, Set(images, img, r.value));
      }
    }
  }

  /** `build_image` fails only on a failing command or a missing output. */
  lemma BuildImageErrors(env: Env, w: World, image: Image, force: bool, only: Option<string>)
    ensures var s := BuildImageSpec(env, w, image, force, only).1;
      s.Raised? ==> s.error.CallFailed? || s.error == AssertionFailed
  {
  }

  /** The corrected first loop fails only on a failing command or a missing build output. */
  lemma {:induction false} BuildLoopIntendedErrors(env: Env, w: World, cf: ComposeFile, ms: seq<string>, build: bool,
                                                   images: Dict<Built>)
    requires forall i :: 0 <= i < |ms| ==> Creatable(cf, ms[i])
    ensures var s := BuildLoopIntendedSpec(env, w, cf, ms, build, images).1;
      s.Raised? ==> s.error.CallFailed? || s.error == AssertionFailed
    decreases |ms|
  {
    if ms != [] {
      var img := MachineImage(cf, ms[0]).image;
      var image := Get(cf.images, img).value;
      BuildLoopIntendedStep(env, w, cf, ms, build, images);
      BuildImageErrors(env, w, image, build, None);
      var (w1, s1, r) := BuildImageSpec(env, w, image, build, None);
      if s1.Ok? && r.Some? {
        assert forall i :: 0 <= i < |ms[1..]| ==> ms[1..][i] == ms[i + 1];
        BuildLoopIntendedErrors(env, w1, cf, ms[1..], build, Set(images, img, r.value));
      }
    }
  }

  /** On success, the corrected first loop holds a result under each machine's image name. */
  lemma {:induction false} BuildLoopIntendedCovers(env: Env, w: World, cf: ComposeFile, ms: seq<string>, build: bool,
                                                   images: Dict<Built>)
    requires forall i :: 0 <= i < |ms| ==> Creatable(cf, ms[i])
    ensures var (w', s, imgs) := BuildLoopIntendedSpec(env, w, cf, ms, build, images);
      s.Ok? ==> forall i :: 0 <= i < |ms| ==>
        MachineImage(cf, ms[i]).Named? && MachineImage(cf, ms[i]).image in Keys(imgs)
    decreases |ms|
  {
    if ms != [] {
      var img := MachineImage(cf, ms[0]).image;
      var image := Get(cf.images, img).value;
      BuildLoopIntendedStep(env, w, cf, ms, build, images);
      var (w1, s1, r) := BuildImageSpec(env, w, image, build, None);
      if s1.Ok? && r.Some? {
        var images1 := Set(images, img, r.value);
        KeysSet(images, img, r.value);
        assert forall i :: 0 <= i < |ms[1..]| ==> ms[1..][i] == ms[i + 1];
        BuildLoopIntendedKeeps(env, w1, cf, ms[1..], build, images1);
        BuildLoopIntendedCovers(env, w1, cf, ms[1..], build, images1);
        var (w', s', imgs) := BuildLoopIntendedSpec(env, w1, cf, ms[1..], build, images1);
        if s'.Ok? {
          assert img in Keys(imgs);
          EveryName(ms, n => MachineImage(cf, n).Named? && MachineImage(cf, n).image in Keys(imgs));
        }
      }
    }
  }

  /** Corrected `create`: when every machine to create names an image of the file, it can no
      longer fail on a lookup; only a failing command or a missing build output stops it. */
  lemma CreateIntendedNoKeyError(env: Env, w: World, cf: ComposeFile, names: seq<string>, build: bool, force: bool,
                                 cpus: Option<nat>)
    requires forall i :: 0 <= i < |Targets(names, cf)| ==> Creatable(cf, Targets(names, cf)[i])
    ensures var (w', s) := CreateIntendedSpec(env, w, cf, names, build, force, cpus);
      s.Raised? ==> s.error.CallFailed? || s.error == AssertionFailed
  {
    var ms := Targets(names, cf);
    BuildLoopIntendedErrors(env, w, cf, ms, build, []);
    BuildLoopIntendedCovers(env, w, cf, ms, build, []);
    var (w1, s1, images) := BuildLoopIntendedSpec(env, w, cf, ms, build, []);
    if s1.Ok? {
      CreateLoopErrors(env, w1, cf, ms, images, force, cpus);
    }
  }

  /** Nothing the pool or the definitions held is lost. */
  predicate Grows(st: State, st': State) {
    (forall x :: x in st.volumes ==> x in st'.volumes) && (forall x :: x in st.defined ==> x in st'.defined)
  }

  /** The last two commands of the upload lose no volume and no definition. */
  lemma StoreGrows(env: Env, w: World, name: string, path: string, size: string, format: string)
    ensures Grows(w.st, StoreSpec(env, w, name, path, size, format).0.st)
  {
    RunVolCreate(env, w, name, size, format);
    RunVolUpload(env, Run(env, w, VolCreate(name, size, format)).0, name, path);
  }

  /** The upload loses no volume and no definition. */
  lemma UploadGrows(env: Env, w: World, name: string, path: string)
    ensures Grows(w.st, UploadSpec(env, w, name, path).0.st)
  {
    var size := ImgInfo(path, VirtualSize);
    var (w1, o1) := Run(env, w, size);
    RunImgInfo(env, w, path, VirtualSize);
    if o1.Done? {
      var format := ImgInfo(path, Format);
      var (w2, o2) := Run(env, w1, format);
      RunImgInfo(env, w1, path, Format);
      if o2.Done? {
        StoreGrows(env, w2, name, path, o1.text, o2.text);
      }
    }
  }

  /** The first half of `create_machine` loses no volume and no definition. */
  lemma CreateVolumeGrows(env: Env, w: World, name: string, output: string, force: bool)
    ensures Grows(w.st, CreateVolumeSpec(env, w, name, output, force).0.st)
  {
    var (w1, listed) := VolumeListedSpec(env, w, name);
    if !listed || force {
      UploadGrows(env, w1, name, output);
    }
  }

  /** The second half of `create_machine` loses no volume and no definition. */
  lemma DefineMachineGrows(env: Env, w: World, name: string, machine: Dict<Value>, force: bool, cpus: Option<nat>)
    ensures Grows(w.st, DefineMachineSpec(env, w, name, machine, force, cpus).0.st)
  {
    var (w1, found) := MachineExistsSpec(env, w, name);
    RunDefineAdds(env, w1, MachineArgv(name, machine, cpus));
  }

  /** `create_machine` loses no volume and no definition. */
  lemma CreateMachineGrows(env: Env, w: World, name: string, machine: Dict<Value>, output: string,
                           force: bool, cpus: Option<nat>)
    ensures Grows(w.st, CreateMachineSpec(env, w, name, machine, output, force, cpus).0.st)
  {
    CreateVolumeGrows(env, w, name, output, force);
    var (w1, s1) := CreateVolumeSpec(env, w, name, output, force);
    if s1.Ok? {
      DefineMachineGrows(env, w1, name, machine, force, cpus);
      GrowsTrans(w.st, w1.st, DefineMachineSpec(env, w1, name, machine, force, cpus).0.st);
    }
  }

  lemma GrowsTrans(a: State, b: State, c: State)
    requires Grows(a, b) && Grows(b, c)
    ensures Grows(a, c)
  {
  }

  /** A machine of the file that `create` can set up under its own name: the name is clean
      and its command line, without the `image` key, defines the domain under that name. */
  predicate Establishable(cf: ComposeFile, name: string, cpus: Option<nat>) {
    Get(cf.machines, name).Some? && Clean(name)
    && NamesItself(name, Remove(Get(cf.machines, name).value, "image"), cpus)
  }

  /** Every machine of the list is establishable. */
  predicate AllEstablishable(cf: ComposeFile, ms: seq<string>, cpus: Option<nat>)
    decreases |ms|
  {
    ms == [] || (Establishable(cf, ms[0], cpus) && AllEstablishable(cf, ms[1..], cpus))
  }

  lemma {:induction false} EveryEstablishable(cf: ComposeFile, ms: seq<string>, cpus: Option<nat>)
    requires forall i :: 0 <= i < |ms| ==> Establishable(cf, ms[i], cpus)
    ensures AllEstablishable(cf, ms, cpus)
    decreases |ms|
  {
    if ms != [] {
      assert Establishable(cf, ms[0], cpus);
      assert forall i :: 0 <= i < |ms[1..]| ==> ms[1..][i] == ms[i + 1];
      EveryEstablishable(cf, ms[1..], cpus);
    }
  }

  /** One step of the second loop of `create`, for a machine whose image result is present. */
  lemma CreateLoopStep(env: Env, w: World, cf: ComposeFile, ms: seq<string>, images: Dict<Built>, force: bool,
                       cpus: Option<nat>, machine: Dict<Value>, img: string, b: Built)
    requires ms != [] && Get(cf.machines, ms[0]) == Some(machine)
    requires ImageOf(machine) == Named(img) && Get(images, img) == Some(b)
    ensures var (w1, s1) := CreateMachineSpec(env, w, ms[0], Remove(machine, "image"), b.output, b.built || force, cpus);
      CreateLoopSpec(env, w, cf, ms, images, force, cpus) ==
        if s1.Raised? then (w1, s1) else CreateLoopSpec(env, w1, cf, ms[1..], images, force, cpus)
  {
  }

  /** What `create_machine` promises, for one machine of the loop. */
  lemma CreateMachineStep(env: Env, w: World, name: string, m: Dict<Value>, output: string, force: bool,
                          cpus: Option<nat>)
    requires Clean(name) && NamesItself(name, m, cpus)
    requires AllWords(w.st.volumes) && AllWords(w.st.defined)
    ensures var (w1, s1) := CreateMachineSpec(env, w, name, m, output, force, cpus);
      Grows(w.st, w1.st) && AllWords(w1.st.volumes) && AllWords(w1.st.defined)
      && (s1.Ok? ==> name in w1.st.volumes && name in w1.st.defined)
  {
    CreateMachineEstablishes(env, w, name, m, output, force, cpus);
    CreateMachineGrows(env, w, name, m, output, force, cpus);
  }

  /** The second loop of `create` loses no volume and no definition, and keeps both lists
      made of words. */
  lemma {:induction false} CreateLoopGrows(env: Env, w: World, cf: ComposeFile, ms: seq<string>,
                                           images: Dict<Built>, force: bool, cpus: Option<nat>)
    requires AllEstablishable(cf, ms, cpus)
    requires AllWords(w.st.volumes) && AllWords(w.st.defined)
    ensures var w' := CreateLoopSpec(env, w, cf, ms, images, force, cpus).0;
      Grows(w.st, w'.st) && AllWords(w'.st.volumes) && AllWords(w'.st.defined)
    decreases |ms|
  {
    if ms != [] {
      var name := ms[0];
      var machine := Get(cf.machines, name).value;
      var img := ImageOf(machine);
      if img.Named? && Get(images, img.image).Some? {
        var b := Get(images, img.image).value;
        var force' := b.built || force;
        var m := Remove(machine, "image");
        CreateLoopStep(env, w, cf, ms, images, force, cpus, machine, img.image, b);
        CreateMachineStep(env, w, name, m, b.output, force', cpus);
        var (w1, s1) := CreateMachineSpec(env, w, name, m, b.output, force', cpus);
        if s1.Ok? {
          CreateLoopGrows(env, w1, cf, ms[1..], images, force, cpus);
          GrowsTrans(w.st, w1.st, CreateLoopSpec(env, w1, cf, ms[1..], images, force, cpus).0.st);
        }
      }
    }
  }

  /** Every machine of the list has its volume in the pool and its domain defined. */
  predicate Established(st: State, ms: seq<string>) {
    forall i :: 0 <= i < |ms| ==> ms[i] in st.volumes && ms[i] in st.defined
  }

  lemma EstablishedCons(st1: State, st: State, ms: seq<string>)
    requires ms != [] && ms[0] in st1.volumes && ms[0] in st1.defined && Grows(st1, st)
    requires Established(st, ms[1..])
    ensures Established(st, ms)
  {
    forall i | 0 <= i < |ms| ensures ms[i] in st.volumes && ms[i] in st.defined {
      if i > 0 {
        assert ms[i] == ms[1..][i - 1];
      }
    }
  }

  /** After a successful second loop of `create`, every machine it went through has its volume
      in the pool and its domain defined. */
  lemma {:induction false} CreateLoopEstablishes(env: Env, w: World, cf: ComposeFile, ms: seq<string>,
                                                 images: Dict<Built>, force: bool, cpus: Option<nat>)
    requires AllEstablishable(cf, ms, cpus)
    requires AllWords(w.st.volumes) && AllWords(w.st.defined)
    ensures var (w', s) := CreateLoopSpec(env, w, cf, ms, images, force, cpus);
      s.Ok? ==> Established(w'.st, ms)
    decreases |ms|
  {
    if ms != [] {
      var name := ms[0];
      var machine := Get(cf.machines, name).value;
      var img := ImageOf(machine);
      if img.Named? && Get(images, img.image).Some? {
        var b := Get(images, img.image).value;
        var force' := b.built || force;
        var m := Remove(machine, "image");
        CreateLoopStep(env, w, cf, ms, images, force, cpus, machine, img.image, b);
        CreateMachineStep(env, w, name, m, b.output, force', cpus);
        var (w1, s1) := CreateMachineSpec(env, w, name, m, b.output, force', cpus);
        if s1.Ok? {
          var tail := ms[1..];
          CreateLoopGrows(env, w1, cf, tail, images, force, cpus);
          CreateLoopEstablishes(env, w1, cf, tail, images, force, cpus);
          var (w', s') := CreateLoopSpec(env, w1, cf, tail, images, force, cpus);
          if s'.Ok? {
            EstablishedCons(w1.st, w'.st, ms);
          }
        }
      }
    }
  }

  /** The corrected first loop only builds images: the pool and the definitions are kept. */
  lemma {:induction false} BuildLoopIntendedFrame(env: Env, w: World, cf: ComposeFile, ms: seq<string>, build: bool,
                                                  images: Dict<Built>)
    ensures var w' := BuildLoopIntendedSpec(env, w, cf, ms, build, images).0;
      w'.st.volumes == w.st.volumes && w'.st.defined == w.st.defined
    decreases |ms|
  {
    if ms != [] {
      match Get(cf.machines, ms[0])
      case None =>
      case Some(machine) =>
        match ImageOf(machine)
        case Unnamed(_) =>
        case Named(img) =>
          match Get(cf.images, img)
          case None =>
          case Some(image) =>
            BuildImageAdds(env, w, image, build, None);
            var (w1, s1, r) := BuildImageSpec(env, w, image, build, None);
            if s1.Ok? && r.Some? {
              BuildLoopIntendedFrame(env, w1, cf, ms[1..], build, Set(images, img, r.value));
            }
    }
  }

  /** Corrected `create`: after success every machine it was asked for has its volume in the
      pool and its domain defined, when each names an image of the file and defines its domain
      under its own clean name. */
  lemma CreateIntendedEstablishes(env: Env, w: World, cf: ComposeFile, names: seq<string>, build: bool,
                                  force: bool, cpus: Option<nat>)
    requires forall i :: 0 <= i < |Targets(names, cf)| ==>
      Creatable(cf, Targets(names, cf)[i]) && Establishable(cf, Targets(names, cf)[i], cpus)
    requires AllWords(w.st.volumes) && AllWords(w.st.defined)
    ensures var (w', s) := CreateIntendedSpec(env, w, cf, names, build, force, cpus);
      s.Ok? ==> Established(w'.st, Targets(names, cf))
  {
    var ms := Targets(names, cf);
    BuildLoopIntendedFrame(env, w, cf, ms, build, []);
    var (w1, s1, images) := BuildLoopIntendedSpec(env, w, cf, ms, build, []);
    if s1.Ok? {
      EveryEstablishable(cf, ms, cpus);
      CreateLoopEstablishes(env, w1, cf, ms, images, force, cpus);
    }
  }

  /** `start` over several machines fails only on a `virsh start` that fails. */
  lemma {:induction false} StartAllErrors(env: Env, w: World, names: seq<string>)
    ensures var (w', s) := StartAllSpec(env, w, names);
      s.Raised? ==> s.error.CallFailed? && s.error.call.Start?
    decreases |names|
  {
    if names != [] {
      StartMachineShows(env, w, names[0]);
      StartAllErrors(env, StartMachineSpec(env, w, names[0]).0, names[1..]);
    }
  }

  /** `up` with the corrected `create`: no lookup error once every machine names an image. */
  lemma UpNoKeyError(env: Env, w: World, cf: ComposeFile, names: seq<string>, build: bool, force: bool,
                     cpus: Option<nat>)
    requires forall i :: 0 <= i < |Targets(names, cf)| ==> Creatable(cf, Targets(names, cf)[i])
    ensures var (w', s) := UpIntendedSpec(env, w, cf, names, build, force, cpus);
      s.Raised? ==> s.error.CallFailed? || s.error == AssertionFailed
  {
    CreateIntendedNoKeyError(env, w, cf, names, build, force, cpus);
    var (w1, s1) := CreateIntendedSpec(env, w, cf, names, build, force, cpus);
    StartAllErrors(env, w1, Targets(names, cf));
  }
}
