/** The domain lifecycle of libvirt-compose.py: the `is_running` and `domain_exists` checks,
    the commands `start`, `stop`, `rm`, `build` (with its clean-up and rollback), `run`, and
    the compose commands `up` and `down`. */
module Lifecycle {
  import opened Text
  import opened Wrappers
  import opened Dicts
  import opened Hypervisor
  import opened Listing
  import opened Storage
  import opened Executor
  import opened Args

  /** The seconds `stop` waits by default, each one a running-state check. */
  const StopTimeout: nat := 10

  /** How a build file installs the guest. `CDRom` carries the size of the blank disk. */
  datatype Installer = CDRom(size: string) | Disk

  /** A build file, as loaded. */
  datatype BuildFile = BuildFile(location: string, sha256: string, memory: int, installer: Installer,
                                 vcpus: Option<int>, os: string, uefi: bool, actions: seq<Action>)

  /** A service of a compose file: the build file of its base image and its operation files,
      as loaded. */
  datatype Service = Service(base: BuildFile, operations: seq<seq<Action>>)

  // ---------------------------------------------------------------------------
  // Queries

  /** `is_running`: whether the name occurs anywhere in `virsh list --state-running`. */
  function IsRunningSpec(env: Env, w: World, name: string): (r: (World, bool))
    ensures r.0 == World(Tick(w.st), w.trace + [ListRunning])
    ensures r.1 == HasSubstring(name, RenderRunning(Tick(w.st)))
  {
    var (w1, text) := Output(env, w, ListRunning);
    (w1, HasSubstring(name, text))
  }

  /** `domain_exists`: whether the name occurs anywhere in `virsh list --all`. */
  function DomainExistsSpec(env: Env, w: World, name: string): (r: (World, bool))
    ensures r.0 == World(w.st, w.trace + [ListAll])
    ensures r.1 == HasSubstring(name, RenderAll(w.st))
  {
    var (w1, text) := Output(env, w, ListAll);
    (w1, HasSubstring(name, text))
  }

  /** `volume_exists`: whether `virsh vol-path` succeeds for the name. */
  function VolumeExistsSpec(env: Env, w: World, name: string): (r: (World, bool))
    ensures r.0.trace == w.trace + [VolPath(name)] && r.0.st == w.st
    ensures r.1 <==> name in w.st.volumes
  {
    var (w1, out) := Run(env, w, VolPath(name));
    (w1, out.Done?)
  }

  method IsRunning(h: Host, name: string) returns (up: bool)
    modifies h
    ensures (h.w, up) == IsRunningSpec(h.env, old(h.w), name)
  {
    var text := h.Query(ListRunning);
    up := HasSubstring(name, text);
  }

  method DomainExists(h: Host, name: string) returns (found: bool)
    modifies h
    ensures (h.w, found) == DomainExistsSpec(h.env, old(h.w), name)
  {
    var text := h.Query(ListAll);
    found := HasSubstring(name, text);
  }

  method VolumeExists(h: Host, name: string) returns (found: bool)
    modifies h
    ensures (h.w, found) == VolumeExistsSpec(h.env, old(h.w), name)
  {
    var out := h.Call(VolPath(name));
    found := out.Done?;
  }

  // ---------------------------------------------------------------------------
  // stop, rm

  /** The `for … else` loop of `stop` with `n` rounds left: a round that finds the domain no
      longer listed ends the loop; running out of rounds destroys the domain. */
  function PollSpec(env: Env, w: World, name: string, n: nat): (World, Status)
    decreases n
  {
    if n == 0 then Check(env, w, Destroy(name))
    else
      var (w1, up) := IsRunningSpec(env, w, name);
      if !up then (w1, Ok) else PollSpec(env, w1, name, n - 1)
  }

  /** `stop`: nothing unless the domain is listed as running; otherwise an ACPI shutdown and at
      most `timeout` checks, then a destroy if it is still listed. A negative timeout makes no
      rounds. */
  function StopSpec(env: Env, w: World, name: string, timeout: int): (World, Status) {
    var (w1, up) := IsRunningSpec(env, w, name);
    if !up then (w1, Ok)
    else
      var (w2, s2) := Check(env, w1, Shutdown(name));
      if s2.Raised? then (w2, s2) else PollSpec(env, w2, name, if timeout < 0 then 0 else timeout)
  }

  method Stop(h: Host, name: string, timeout: int) returns (s: Status)
    modifies h
    ensures (h.w, s) == StopSpec(h.env, old(h.w), name, timeout)
  {
    ghost var w0 := h.w;
    var up := IsRunning(h, name);
    if !up {
      assert StopSpec(h.env, w0, name, timeout) == (h.w, Ok);
      return Ok;
    }
    ghost var w1 := h.w;
    s := h.CheckCall(Shutdown(name));
    assert (h.w, s) == Check(h.env, w1, Shutdown(name));
    if s.Raised? {
      return;
    }
    var left: nat := if timeout < 0 then 0 else timeout;
    ghost var goal := PollSpec(h.env, h.w, name, left);
    assert StopSpec(h.env, w0, name, timeout) == goal;
    while left > 0
      invariant PollSpec(h.env, h.w, name, left) == goal
    {
      ghost var before := h.w;
      up := IsRunning(h, name);
      assert PollSpec(h.env, before, name, left) == if !up then (h.w, Ok) else PollSpec(h.env, h.w, name, left - 1);
      if !up {
        return Ok;
      }
      left := left - 1;
    }
    s := h.CheckCall(Destroy(name));
  }

  /** `rm`: undefine the domain, then delete its volume. */
  function RmSpec(env: Env, w: World, name: string): (World, Status) {
    var (w1, s1) := Check(env, w, Undefine(name));
    if s1.Raised? then (w1, s1) else Check(env, w1, VolDelete(name))
  }

  method Rm(h: Host, name: string) returns (s: Status)
    modifies h
    ensures (h.w, s) == RmSpec(h.env, old(h.w), name)
  {
    s := h.CheckCall(Undefine(name));
    if s.Ok? {
      s := h.CheckCall(VolDelete(name));
    }
  }

  // ---------------------------------------------------------------------------
  // Preparing the installer image: `ensure_source_exists`

  /** Where the installer image is read from: a download lands in a temporary directory. */
  const Downloaded: string := "out"

  /** `download_source`: an http(s) location is fetched with curl first. */
  function DownloadSpec(env: Env, w: World, location: string): (World, Status, string) {
    if IsUrl(location) then
      var (w1, s1) := Check(env, w, Download(location));
      (w1, s1, Downloaded)
    else (w, Ok, location)
  }

  /** Creates volume `name` with the size and format `qemu-img` reports for `path`, and
      uploads the image into it (libvirt-compose.py and `create_machine` of virt_compose.py). */
  function UploadSpec(env: Env, w: World, name: string, path: string): (World, Status) {
    var size := ImgInfo(path, VirtualSize);
    var (w1, o1) := Run(env, w, size);
    if o1.Failed? then (w1, Raised(CallFailed(size)))
    else
      var format := ImgInfo(path, Format);
      var (w2, o2) := Run(env, w1, format);
      if o2.Failed? then (w2, Raised(CallFailed(format)))
      else StoreSpec(env, w2, name, path, o1.text, o2.text)
  }

  /** The last two commands of the upload: `vol-create-as` with the reported size and
      format, then `vol-upload`. */
  function StoreSpec(env: Env, w: World, name: string, path: string, size: string, format: string): (World, Status) {
    var (w1, s1) := Check(env, w, VolCreate(name, size, format));
    if s1.Raised? then (w1, s1) else Check(env, w1, VolUpload(name, path))
  }

  /** `ensure_source_exists`: unless the pool already holds the volume, fetch the image,
      verify its checksum and upload it. */
  function EnsureSourceSpec(env: Env, w: World, location: string, name: string, sha256: string): (World, Status) {
    var (w1, present) := VolumeExistsSpec(env, w, name);
    if present then (w1, Ok)
    else
      var (w2, s2, path) := DownloadSpec(env, w1, location);
      if s2.Raised? then (w2, s2)
      else
        var (w3, s3) := Check(env, w2, Checksum(sha256, path));
        if s3.Raised? then (w3, s3) else UploadSpec(env, w3, name, path)
  }

  method Upload(h: Host, name: string, path: string) returns (s: Status)
    modifies h
    ensures (h.w, s) == UploadSpec(h.env, old(h.w), name, path)
  {
    var size := ImgInfo(path, VirtualSize);
    var o1 := h.Call(size);
    if o1.Failed? {
      return Raised(CallFailed(size));
    }
    var format := ImgInfo(path, Format);
    var o2 := h.Call(format);
    if o2.Failed? {
      return Raised(CallFailed(format));
    }
    s := h.CheckCall(VolCreate(name, o1.text, o2.text));
    if s.Ok? {
      s := h.CheckCall(VolUpload(name, path));
    }
  }

  method EnsureSource(h: Host, location: string, name: string, sha256: string) returns (s: Status)
    modifies h
    ensures (h.w, s) == EnsureSourceSpec(h.env, old(h.w), location, name, sha256)
  {
    var present := VolumeExists(h, name);
    if present {
      return Ok;
    }
    var path := location;
    if IsUrl(location) {
      s := h.CheckCall(Download(location));
      if s.Raised? {
        return;
      }
      path := Downloaded;
    }
    s := h.CheckCall(Checksum(sha256, path));
    if s.Ok? {
      s := Upload(h, name, path);
    }
  }

  // ---------------------------------------------------------------------------
  // build

  /** The `virt-install` arguments `build` starts from; `cpus` is what `cpu_count()` returns. */
  function BuildArgs(name: string, bf: BuildFile, cpus: Option<nat>): Dict<Item> {
    [("name", Atom(Str(name))),
     ("memory", Atom(Int(bf.memory))),
     ("vcpus", Atom(if bf.vcpus.Some? then Int(bf.vcpus.value) else if cpus.Some? then Int(cpus.value) else Null)),
     ("noreboot", Atom(Bool(true))),
     ("os-variant", Atom(Str(bf.os))),
     ("boot", if bf.uefi then Sub([("firmware", Str("efi")), ("loader_secure", Str("no"))]) else Atom(Null)),
     ("disk", Sub([("vol", Str(PoolName + "/" + name))])),
     ("noautoconsole", Atom(Bool(true)))]
  }

  /** The arguments of an import from an existing disk. */
  function DiskArgs(args: Dict<Item>): Dict<Item> {
    Set(Set(args, "import", Atom(Bool(true))), "noreboot", Atom(Bool(false)))
  }

  /** The unchecked clean-up `srun` calls: destroy, undefine, delete the volume, whatever
      each of them answers. */
  function CleanupSpec(env: Env, w: World, name: string): (r: World)
    ensures r.trace == w.trace + [Destroy(name), Undefine(name), VolDelete(name)]
  {
    var w1 := Run(env, w, Destroy(name)).0;
    var w2 := Run(env, w1, Undefine(name)).0;
    AppendThree(w.trace, Destroy(name), Undefine(name), VolDelete(name));
    Run(env, w2, VolDelete(name)).0
  }

  lemma AppendThree<T>(a: seq<T>, x: T, y: T, z: T)
    ensures a + [x] + [y] + [z] == a + [x, y, z]
  {
  }

  /** The installer branch and `virt-install`: a CD-ROM install boots the source volume and
      writes to a new blank raw volume; a disk install imports the volume. */
  function InstallSpec(env: Env, w: World, name: string, args: Dict<Item>, installer: Installer,
                       source: string): (World, Status)
  {
    match installer
    case CDRom(size) =>
      var (w1, o1) := Run(env, w, VolPath(source));
      if o1.Failed? then (w1, Raised(CallFailed(VolPath(source))))
      else
        var (w2, s2) := Check(env, w1, VolCreate(name, size, "raw"));
        if s2.Raised? then (w2, s2)
        else Check(env, w2, Define(Argv(LibvirtFlags(Set(args, "cdrom", Atom(Str(o1.text)))))))
    case Disk =>
      Check(env, w, Define(Argv(LibvirtFlags(DiskArgs(args)))))
  }

  /** `build` up to and including `virt-install`. */
  function PrepareSpec(env: Env, w: World, name: string, bf: BuildFile, cpus: Option<nat>): (World, Status) {
    var source := GetStorageName(bf.location);
    var (w1, s1) := EnsureSourceSpec(env, w, bf.location, source, bf.sha256);
    if s1.Raised? then (w1, s1)
    else InstallSpec(env, CleanupSpec(env, w1, name), name, BuildArgs(name, bf, cpus), bf.installer, source)
  }

  /** The `try` block of `build`: run the actions and stop the guest; if either raises, clean
      up and raise the same error again. */
  function ProvisionSpec(env: Env, w: World, name: string, actions: seq<Action>, sftp: Option<string>): (World, Status) {
    var (w1, s1) := ExecuteSpec(env, w, name, actions, sftp);
    SettleBuildSpec(env, w1, name, s1)
  }

  /** The rest of the `try` block once `execute` has answered `s`: stop the guest after a
      success; on an error of either, clean up and raise it again. */
  function SettleBuildSpec(env: Env, w: World, name: string, s: Status): (World, Status) {
    var (w2, s2) := if s.Raised? then (w, s) else StopSpec(env, w, name, StopTimeout);
    if s2.Raised? then (CleanupSpec(env, w2, name), s2) else (w2, Ok)
  }

  /** `build`. */
  function BuildSpec(env: Env, w: World, name: string, bf: BuildFile, cpus: Option<nat>, sftp: Option<string>): (World, Status) {
    var (w1, s1) := PrepareSpec(env, w, name, bf, cpus);
    if s1.Raised? then (w1, s1) else ProvisionSpec(env, w1, name, bf.actions, sftp)
  }

  method Cleanup(h: Host, name: string)
    modifies h
    ensures h.w == CleanupSpec(h.env, old(h.w), name)
  {
    var _ := h.Call(Destroy(name));
    var _ := h.Call(Undefine(name));
    var _ := h.Call(VolDelete(name));
  }

  method Install(h: Host, name: string, args: Dict<Item>, installer: Installer, source: string) returns (s: Status)
    modifies h
    ensures (h.w, s) == InstallSpec(h.env, old(h.w), name, args, installer, source)
  {
    var argv: seq<string>;
    match installer {
      case CDRom(size) =>
        var o1 := h.Call(VolPath(source));
        if o1.Failed? {
          return Raised(CallFailed(VolPath(source)));
        }
        s := h.CheckCall(VolCreate(name, size, "raw"));
        if s.Raised? {
          return;
        }
        argv := ArgsDictToList(Set(args, "cdrom", Atom(Str(o1.text))));
      case Disk =>
        argv := ArgsDictToList(DiskArgs(args));
    }
    s := h.CheckCall(Define(argv));
  }

  method Prepare(h: Host, name: string, bf: BuildFile, cpus: Option<nat>) returns (s: Status)
    modifies h
    ensures (h.w, s) == PrepareSpec(h.env, old(h.w), name, bf, cpus)
  {
    var source := GetStorageName(bf.location);
    s := EnsureSource(h, bf.location, source, bf.sha256);
    if s.Raised? {
      return;
    }
    Cleanup(h, name);
    s := Install(h, name, BuildArgs(name, bf, cpus), bf.installer, source);
  }

  method Provision(h: Host, name: string, actions: seq<Action>, sftp: Option<string>) returns (s: Status)
    modifies h
    ensures (h.w, s) == ProvisionSpec(h.env, old(h.w), name, actions, sftp)
  {
    s := Execute(h, name, actions, sftp);
    if s.Ok? {
      s := Stop(h, name, StopTimeout);
    }
    if s.Raised? {
      Cleanup(h, name);
    }
  }

  method Build(h: Host, name: string, bf: BuildFile, cpus: Option<nat>, sftp: Option<string>) returns (s: Status)
    modifies h
    ensures (h.w, s) == BuildSpec(h.env, old(h.w), name, bf, cpus, sftp)
  {
    s := Prepare(h, name, bf, cpus);
    if s.Ok? {
      s := Provision(h, name, bf.actions, sftp);
    }
  }

  /** The domain name of the `build` command: the `--name` option, or else the build file's
      name without its extension. */
  function BuildName(file: string, name: Option<string>): string {
    if name.Some? then name.value else SplitExtRoot(PathName(file))
  }

  /** The `build` command on the build file at path `file`, whose contents are `bf`. */
  method BuildCommand(h: Host, file: string, name: Option<string>, bf: BuildFile, cpus: Option<nat>,
                      sftp: Option<string>) returns (s: Status)
    modifies h
    ensures (h.w, s) == BuildSpec(h.env, old(h.w), BuildName(file, name), bf, cpus, sftp)
  {
    var n: string;
    if name.None? {
      n := SplitExtRoot(PathName(file));
    } else {
      n := name.value;
    }
    s := Build(h, n, bf, cpus, sftp);
  }

  // ---------------------------------------------------------------------------
  // run, up, down

  /** `run`: start the domain, run the actions, and stop it in a `finally`, whose error
      replaces the actions' error. */
  function OperateSpec(env: Env, w: World, name: string, actions: seq<Action>, sftp: Option<string>): (World, Status) {
    var (w1, s1) := Check(env, w, Start(name));
    if s1.Raised? then (w1, s1)
    else
      var (w2, s2) := ExecuteSpec(env, w1, name, actions, sftp);
      var (w3, s3) := StopSpec(env, w2, name, StopTimeout);
      (w3, if s3.Raised? then s3 else s2)
  }

  /** The operation files of a service, in order; the first raising one ends the loop. */
  function OperationsSpec(env: Env, w: World, name: string, ops: seq<seq<Action>>, sftp: Option<string>): (World, Status)
    decreases |ops|
  {
    if ops == [] then (w, Ok)
    else
      var (w1, s1) := OperateSpec(env, w, name, ops[0], sftp);
      if s1.Raised? then (w1, s1) else OperationsSpec(env, w1, name, ops[1..], sftp)
  }

  /** The first bring-up of a service: build its domain, then run its operation files. */
  function FirstUpSpec(env: Env, w: World, name: string, sv: Service, cpus: Option<nat>, sftp: Option<string>): (World, Status) {
    var (w1, s1) := BuildSpec(env, w, name, sv.base, cpus, sftp);
    if s1.Raised? then (w1, s1) else OperationsSpec(env, w1, name, sv.operations, sftp)
  }

  /** One service of `up`: the first bring-up unless a domain of that name is listed, then a
      start in any case. */
  function ServiceUpSpec(env: Env, w: World, name: string, sv: Service, cpus: Option<nat>, sftp: Option<string>): (World, Status) {
    var (w1, found) := DomainExistsSpec(env, w, name);
    var (w2, s2) := if found then (w1, Ok) else FirstUpSpec(env, w1, name, sv, cpus, sftp);
    if s2.Raised? then (w2, s2) else Check(env, w2, Start(name))
  }

  /** `up`: the services in order; the first raising one ends the command. */
  function UpSpec(env: Env, w: World, services: Dict<Service>, cpus: Option<nat>, sftp: Option<string>): (World, Status)
    decreases |services|
  {
    if services == [] then (w, Ok)
    else
      var (w1, s1) := ServiceUpSpec(env, w, services[0].0, services[0].1, cpus, sftp);
      if s1.Raised? then (w1, s1) else UpSpec(env, w1, services[1..], cpus, sftp)
  }

  /** One service of `down`: stop it if a domain of that name is listed, and remove it too
      when `volumes` is set. */
  function ServiceDownSpec(env: Env, w: World, name: string, volumes: bool): (World, Status) {
    var (w1, found) := DomainExistsSpec(env, w, name);
    if !found then (w1, Ok)
    else
      var (w2, s2) := StopSpec(env, w1, name, StopTimeout);
      if s2.Raised? || !volumes then (w2, s2) else RmSpec(env, w2, name)
  }

  /** `down`: the services in order; the first raising one ends the command. */
  function DownSpec(env: Env, w: World, names: seq<string>, volumes: bool): (World, Status)
    decreases |names|
  {
    if names == [] then (w, Ok)
    else
      var (w1, s1) := ServiceDownSpec(env, w, names[0], volumes);
      if s1.Raised? then (w1, s1) else DownSpec(env, w1, names[1..], volumes)
  }

  method Operate(h: Host, name: string, actions: seq<Action>, sftp: Option<string>) returns (s: Status)
    modifies h
    ensures (h.w, s) == OperateSpec(h.env, old(h.w), name, actions, sftp)
  {
    s := h.CheckCall(Start(name));
    if s.Raised? {
      return;
    }
    s := Execute(h, name, actions, sftp);
    var s3 := Stop(h, name, StopTimeout);
    if s3.Raised? {
      s := s3;
    }
  }

  method ServiceUp(h: Host, name: string, sv: Service, cpus: Option<nat>, sftp: Option<string>) returns (s: Status)
    modifies h
    ensures (h.w, s) == ServiceUpSpec(h.env, old(h.w), name, sv, cpus, sftp)
  {
    var found := DomainExists(h, name);
    if !found {
      s := FirstUp(h, name, sv, cpus, sftp);
      if s.Raised? {
        return;
      }
    }
    s := h.CheckCall(Start(name));
  }

  method FirstUp(h: Host, name: string, sv: Service, cpus: Option<nat>, sftp: Option<string>) returns (s: Status)
    modifies h
    ensures (h.w, s) == FirstUpSpec(h.env, old(h.w), name, sv, cpus, sftp)
  {
    s := Build(h, name, sv.base, cpus, sftp);
    if s.Raised? {
      return;
    }
    s := Operations(h, name, sv.operations, sftp);
  }

  /** The loop of `up` over a service's operation files. */
  method Operations(h: Host, name: string, ops: seq<seq<Action>>, sftp: Option<string>) returns (s: Status)
    modifies h
    ensures (h.w, s) == OperationsSpec(h.env, old(h.w), name, ops, sftp)
  {
    for i := 0 to |ops|
      invariant OperationsSpec(h.env, h.w, name, ops[i..], sftp) == OperationsSpec(h.env, old(h.w), name, ops, sftp)
    {
      assert ops[i..][0] == ops[i] && ops[i..][1..] == ops[i + 1..];
      s := Operate(h, name, ops[i], sftp);
      if s.Raised? {
        return;
      }
    }
    return Ok;
  }

  method Up(h: Host, services: Dict<Service>, cpus: Option<nat>, sftp: Option<string>) returns (s: Status)
    modifies h
    ensures (h.w, s) == UpSpec(h.env, old(h.w), services, cpus, sftp)
  {
    ghost var goal := UpSpec(h.env, h.w, services, cpus, sftp);
    for i := 0 to |services|
      invariant UpSpec(h.env, h.w, services[i..], cpus, sftp) == goal
    {
      assert services[i..][0] == services[i] && services[i..][1..] == services[i + 1..];
      var (name, sv) := services[i];
      s := ServiceUp(h, name, sv, cpus, sftp);
      if s.Raised? {
        return;
      }
    }
    return Ok;
  }

  method ServiceDown(h: Host, name: string, volumes: bool) returns (s: Status)
    modifies h
    ensures (h.w, s) == ServiceDownSpec(h.env, old(h.w), name, volumes)
  {
    var found := DomainExists(h, name);
    if !found {
      return Ok;
    }
    s := Stop(h, name, StopTimeout);
    if s.Ok? && volumes {
      s := Rm(h, name);
    }
  }

  method Down(h: Host, names: seq<string>, volumes: bool) returns (s: Status)
    modifies h
    ensures (h.w, s) == DownSpec(h.env, old(h.w), names, volumes)
  {
    ghost var goal := DownSpec(h.env, h.w, names, volumes);
    for i := 0 to |names|
      invariant DownSpec(h.env, h.w, names[i..], volumes) == goal
    {
      assert names[i..][0] == names[i] && names[i..][1..] == names[i + 1..];
      s := ServiceDown(h, names[i], volumes);
      if s.Raised? {
        return;
      }
    }
    return Ok;
  }
}
