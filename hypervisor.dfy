/** The abstract host both tools drive: the libvirt hypervisor (defined and running domains,
    the storage pool), the local files, pipes and child processes, and every external command
    the tools issue, recorded in a trace. */
module Hypervisor {
  import opened Text
  import opened Wrappers
  import opened Dicts
  import Args

  type Fd = nat
  type Pid = nat

  /** Which field of `qemu-img info --output json` a call reads. */
  datatype InfoField = VirtualSize | Format

  /** One external command. */
  datatype Call =
    // domain lifecycle
    | Define(argv: seq<string>)                 // virt-install <argv>
    | Start(name: string)                       // virsh start
    | Shutdown(name: string)                    // virsh shutdown --mode acpi
    | Destroy(name: string)                     // virsh destroy
    | Undefine(name: string)                    // virsh undefine --nvram --tpm
    // the storage pool
    | VolCreate(name: string, size: string, format: string)  // virsh vol-create-as
    | VolUpload(name: string, path: string)     // virsh vol-upload
    | VolDelete(name: string)                   // virsh vol-delete
    // queries
    | ListAll                                   // virsh list --all
    | ListRunning                               // virsh list --state-running
    | VolList                                   // virsh vol-list
    | VolPath(name: string)                     // virsh vol-path
    | ImgInfo(path: string, field: InfoField)   // qemu-img info --output json
    // image preparation
    | Download(location: string)                // curl -L
    | Checksum(sha256: string, path: string)    // sha256sum --check
    | PackerInit(file: string)
    | PackerBuild(file: string, only: Option<string>)
    // the guest
    | SshAdd                                    // ssh-add -L
    | SendKey(domain: string, keys: seq<string>)
    | IpLookup(domain: string)                  // virsh dumpxml + virsh net-dhcp-leases
    | Scp(src: string, target: string)
    | Ssh(target: string, command: string)
    // local pipes and child processes
    | OpenPipe
    | Spawn(argv: seq<string>, stdin: Fd, stdout: Fd)
    | Close(fd: Fd)
    | Poll(pid: Pid)
    | Terminate(pid: Pid)
    | Wait(pid: Pid)

  /** A child process: its command line and the pipe ends it reads from and writes to. */
  datatype Proc = Proc(argv: seq<string>, stdin: Fd, stdout: Fd)

  datatype State = State(
    defined: seq<string>,        // defined domains, in definition order
    running: set<string>,
    pending: map<string, nat>,   // shut-down guests: listings left before they halt
    volumes: seq<string>,        // pool volumes, in creation order
    files: set<string>,          // local paths that exist
    open: set<Fd>,               // pipe ends open in this process
    procs: map<Pid, Proc>,       // every child ever spawned
    alive: set<Pid>)             // children not yet terminated

  /** What the model does not decide itself. The command issued at trace position `p`
      fails when `p` is in `faults` (for `Poll`: the child has already exited). */
  datatype Env = Env(
    faults: set<nat>,
    graceful: map<string, nat>,   // listings a guest takes to halt after ACPI shutdown; absent: never
    leases: map<string, string>,  // `net-dhcp-leases` output for the MAC of each domain
    imgSize: map<string, string>,
    imgFormat: map<string, string>,
    products: map<(string, Option<string>), set<string>>,  // files a packer build writes
    sshKeys: string)

  datatype World = World(st: State, trace: seq<Call>)

  datatype Outcome = Failed | Done(text: string, ids: seq<nat>)

  /** A Python exception raised by an operation. */
  datatype Error =
    | CallFailed(call: Call)           // CalledProcessError / OSError of a command
    | KeyError(key: string)
    | CharMissing(c: char)             // KeyError of a character outside the key table
    | MissingChars(chars: set<char>)   // NotImplementedError of the pre-flight scan
    | NoSftpServer                     // "Missing SFTP_SERVER environment variable"
    | LeaseFormat(text: string)        // ValueError while unpacking a lease line, or the
                                       // IndexError of `[-2]` on fewer than two lines
    | AssertionFailed

  datatype Status = Ok | Raised(error: Error)

  const PoolName: string := "default"
  const PoolDir: string := "/var/lib/libvirt/images"

  /** The path `virsh vol-path` prints for a volume of the pool. */
  function VolumePath(name: string): string {
    PoolDir + "/" + name
  }

  /** The domain a `virt-install` command line defines: the argument of its `--name` flag. */
  function DomainName(argv: seq<string>): Option<string> {
    var flag: Option<Option<string>> := Get(Args.ParseArgv(argv), "name");
    if flag.Some? && flag.value.Some? then Some(flag.value.value) else None
  }

  /** Whether `virt-install` starts the domain it defines: an `--import` with `--noreboot`
      only defines it, every other command line also runs it (an installation runs the
      domain, an import without `--noreboot` boots it). */
  predicate Boots(argv: seq<string>) {
    var flags := Args.ParseArgv(argv);
    !(Get(flags, "import").Some? && Get(flags, "noreboot").Some?)
  }

  /** Commands whose failure the environment decides. */
  predicate Fallible(c: Call) {
    !(c.ListAll? || c.ListRunning? || c.VolList? || c.VolPath? || c.ImgInfo? || c.IpLookup?
      || c.OpenPipe? || c.Close? || c.Terminate? || c.Wait?)
  }

  function Without(s: seq<string>, n: string): (r: seq<string>)
    ensures forall x :: x in r <==> x in s && x != n
  {
    if s == [] then [] else (if s[0] == n then [] else [s[0]]) + Without(s[1..], n)
  }

  /** One listing: the guests whose countdown has run out halt, the others count down. */
  function Tick(st: State): State {
    st.(running := st.running - (set n | n in st.pending && st.pending[n] == 0),
        pending := map n | n in st.pending && st.pending[n] > 0 :: st.pending[n] - 1)
  }

  const Success: Outcome := Done([], [])

  /** What a domain lifecycle command does. */
  function DomainEffect(env: Env, st: State, c: Call): (State, Outcome)
    requires c.Define? || c.Start? || c.Shutdown? || c.Destroy? || c.Undefine?
  {
    match c
    case Define(argv) =>
      (match DomainName(argv)
       case None => (st, Failed)
       case Some(n) =>
         if n in st.defined then (st, Failed)
         else
           var running := if Boots(argv) then st.running + {n} else st.running;
           (st.(defined := st.defined + [n], running := running, pending := st.pending - {n}), Success))
    case Start(n) =>
      if n in st.defined && n !in st.running then (st.(running := st.running + {n}, pending := st.pending - {n}), Success)
      else (st, Failed)
    case Shutdown(n) =>
      if n in st.running then
        (st.(pending := if n in env.graceful then st.pending[n := env.graceful[n]] else st.pending - {n}), Success)
      else (st, Failed)
    case Destroy(n) =>
      if n in st.running then (st.(running := st.running - {n}, pending := st.pending - {n}), Success)
      else (st, Failed)
    case Undefine(n) =>
      if n in st.defined && n !in st.running then (st.(defined := Without(st.defined, n)), Success)
      else (st, Failed)
  }

  /** What a storage pool command does. */
  function PoolEffect(st: State, c: Call): (State, Outcome)
    requires c.VolCreate? || c.VolUpload? || c.VolDelete?
  {
    match c
    case VolCreate(n, _, _) =>
      if n in st.volumes then (st, Failed) else (st.(volumes := st.volumes + [n]), Success)
    case VolUpload(n, _) =>
      if n in st.volumes then (st, Success) else (st, Failed)
    case VolDelete(n) =>
      if n in st.volumes then (st.(volumes := Without(st.volumes, n)), Success) else (st, Failed)
  }

  /** What a query prints. Only a running-state listing changes anything: it lets time pass. */
  function QueryEffect(env: Env, st: State, c: Call): (State, Outcome)
    requires c.ListAll? || c.ListRunning? || c.VolList? || c.VolPath? || c.ImgInfo? || c.SshAdd? || c.IpLookup?
  {
    match c
    case ListAll => (st, Done(RenderAll(st), []))
    case ListRunning => (Tick(st), Done(RenderRunning(Tick(st)), []))
    case VolList => (st, Done(RenderVolumes(st), []))
    case VolPath(n) => if n in st.volumes then (st, Done(VolumePath(n), [])) else (st, Failed)
    case ImgInfo(path, f) =>
      var m := if f == VirtualSize then env.imgSize else env.imgFormat;
      if path in m then (st, Done(m[path], [])) else (st, Failed)
    case SshAdd => (st, Done(env.sshKeys, []))
    case IpLookup(n) => if n in env.leases then (st, Done(env.leases[n], [])) else (st, Failed)
  }

  /** What a pipe or child-process operation of this process does. */
  function LocalEffect(st: State, p: nat, c: Call): (State, Outcome)
    requires c.OpenPipe? || c.Spawn? || c.Close? || c.Terminate?
  {
    match c
    case OpenPipe => (st.(open := st.open + {2 * p, 2 * p + 1}), Done([], [2 * p, 2 * p + 1]))
    case Spawn(argv, i, o) => (st.(procs := st.procs[p := Proc(argv, i, o)], alive := st.alive + {p}), Done([], [p]))
    case Close(fd) => if fd in st.open then (st.(open := st.open - {fd}), Success) else (st, Failed)
    case Terminate(pid) => (st.(alive := st.alive - {pid}), Success)
  }

  /** Commands that succeed without changing the modelled state. */
  predicate Silent(c: Call) {
    c.Download? || c.Checksum? || c.PackerInit? || c.SendKey? || c.Scp? || c.Ssh? || c.Poll? || c.Wait?
  }

  /** What a command that the environment lets through does. */
  function Effect(env: Env, st: State, p: nat, c: Call): (State, Outcome) {
    if Silent(c) then (st, Success)
    else if c.Define? || c.Start? || c.Shutdown? || c.Destroy? || c.Undefine? then DomainEffect(env, st, c)
    else if c.VolCreate? || c.VolUpload? || c.VolDelete? then PoolEffect(st, c)
    else if c.PackerBuild? then
      (st.(files := st.files + (if (c.file, c.only) in env.products then env.products[(c.file, c.only)] else {})), Success)
    else if c.OpenPipe? || c.Spawn? || c.Close? || c.Terminate? then LocalEffect(st, p, c)
    else QueryEffect(env, st, c)
  }

  /** Issues `c`: it is recorded in the trace whether or not it succeeds, and a failed
      command changes nothing. */
  function Run(env: Env, w: World, c: Call): (r: (World, Outcome))
    ensures r.0.trace == w.trace + [c]
    ensures r.1.Failed? ==> r.0.st == w.st
    ensures c == OpenPipe ==> r.1 == Done([], [2 * |w.trace|, 2 * |w.trace| + 1])
    ensures c.Spawn? && r.1.Done? ==> r.1.ids == [|w.trace|]
  {
    var p := |w.trace|;
    if Fallible(c) && p in env.faults then (World(w.st, w.trace + [c]), Failed)
    else
      var (st, out) := Effect(env, w.st, p, c);
      (World(if out.Failed? then w.st else st, w.trace + [c]), out)
  }

  /** A command that changes nothing succeeds unless the environment fails it. */
  lemma RunSilent(env: Env, w: World, c: Call)
    requires Silent(c) && |w.trace| !in env.faults
    ensures Run(env, w, c) == (World(w.st, w.trace + [c]), Success)
  {
  }

  lemma RunTerminate(env: Env, w: World, pid: Pid)
    ensures Run(env, w, Terminate(pid)) ==
      (World(w.st.(alive := w.st.alive - {pid}), w.trace + [Terminate(pid)]), Success)
  {
  }

  lemma RunWait(env: Env, w: World, pid: Pid)
    ensures Run(env, w, Wait(pid)) == (World(w.st, w.trace + [Wait(pid)]), Success)
  {
  }

  /** A pipe's two ends are numbered after the trace position that opens it. */
  lemma RunOpenPipe(env: Env, w: World)
    ensures var p := |w.trace|;
      Run(env, w, OpenPipe) ==
        (World(w.st.(open := w.st.open + {2 * p, 2 * p + 1}), w.trace + [OpenPipe]), Done([], [2 * p, 2 * p + 1]))
  {
  }

  /** Two pipes opened in a row take the four numbers after the position of the first. */
  lemma RunTwoPipes(env: Env, w: World)
    ensures var p := |w.trace|;
      var (w1, o1) := Run(env, w, OpenPipe);
      w1 == World(w.st.(open := w.st.open + {2 * p, 2 * p + 1}), w.trace + [OpenPipe])
      && o1 == Done([], [2 * p, 2 * p + 1])
      && Run(env, w1, OpenPipe) ==
           (World(w.st.(open := w.st.open + {2 * p, 2 * p + 1} + {2 * p + 2, 2 * p + 3}), w.trace + [OpenPipe, OpenPipe]),
            Done([], [2 * p + 2, 2 * p + 3]))
  {
    var p := |w.trace|;
    var w1 := World(w.st.(open := w.st.open + {2 * p, 2 * p + 1}), w.trace + [OpenPipe]);
    RunOpenPipe(env, w);
    RunOpenPipe(env, w1);
    assert 2 * |w1.trace| == 2 * p + 2 && 2 * |w1.trace| + 1 == 2 * p + 3;
    assert w.trace + [OpenPipe] + [OpenPipe] == w.trace + [OpenPipe, OpenPipe];
  }

  /** A child is numbered after the trace position that spawns it. */
  lemma RunSpawn(env: Env, w: World, argv: seq<string>, i: Fd, o: Fd)
    requires |w.trace| !in env.faults
    ensures var p := |w.trace|;
      Run(env, w, Spawn(argv, i, o)) ==
        (World(w.st.(procs := w.st.procs[p := Proc(argv, i, o)], alive := w.st.alive + {p}),
               w.trace + [Spawn(argv, i, o)]), Done([], [p]))
  {
  }

  lemma RunClose(env: Env, w: World, fd: Fd)
    requires fd in w.st.open
    ensures Run(env, w, Close(fd)) == (World(w.st.(open := w.st.open - {fd}), w.trace + [Close(fd)]), Success)
  {
  }

  /** `check_call`: a failing command raises. */
  function Check(env: Env, w: World, c: Call): (r: (World, Status))
    ensures r.0 == Run(env, w, c).0
    ensures r.1.Ok? <==> Run(env, w, c).1.Done?
    ensures r.1.Raised? ==> r.1.error == CallFailed(c)
  {
    var (w', out) := Run(env, w, c);
    (w', if out.Failed? then Raised(CallFailed(c)) else Ok)
  }

  /** `check_output` of a listing, which never fails: the text the listing prints. */
  function Output(env: Env, w: World, c: Call): (r: (World, string))
    requires c.ListAll? || c.ListRunning? || c.VolList?
    ensures Run(env, w, c) == (r.0, Done(r.1, []))
    ensures r.0 == World(if c.ListRunning? then Tick(w.st) else w.st, w.trace + [c])
    ensures r.1 == if c.ListAll? then RenderAll(w.st)
                   else if c.ListRunning? then RenderRunning(Tick(w.st))
                   else RenderVolumes(w.st)
  {
    var (w1, out) := Run(env, w, c);
    (w1, out.text)
  }

  // ---------------------------------------------------------------------------
  // The listings `virsh list` and `virsh vol-list` print

  const Rule: string := "----------------------------------"

  /** One line of a table: each word preceded by a blank, then the newline. */
  function Line(ws: seq<string>): string {
    if ws == [] then "\n" else " " + ws[0] + Line(ws[1..])
  }

  function Render(lines: seq<seq<string>>): string {
    if lines == [] then [] else Line(lines[0]) + Render(lines[1..])
  }

  /** The row of the `k`-th listed domain: running domains show an id, stopped ones `-`. */
  function DomainRow(k: nat, n: string, running: bool): seq<string> {
    if running then [IntToString(k + 1), n, "running"] else ["-", n, "shut", "off"]
  }

  function AllRows(ds: seq<string>, running: set<string>, k: nat): seq<seq<string>>
    decreases |ds|
  {
    if ds == [] then [] else [DomainRow(k, ds[0], ds[0] in running)] + AllRows(ds[1..], running, k + 1)
  }

  function RunningRows(ds: seq<string>, running: set<string>, k: nat): seq<seq<string>>
    decreases |ds|
  {
    if ds == [] then []
    else if ds[0] in running then [DomainRow(k, ds[0], true)] + RunningRows(ds[1..], running, k + 1)
    else RunningRows(ds[1..], running, k)
  }

  const DomainHeader: seq<seq<string>> := [["Id", "Name", "State"], [Rule]]
  const VolumeHeader: seq<seq<string>> := [["Name", "Path"], [Rule]]

  function VolumeRows(vs: seq<string>): seq<seq<string>> {
    if vs == [] then [] else [[vs[0], VolumePath(vs[0])]] + VolumeRows(vs[1..])
  }

  /** `virsh list --all`. */
  function RenderAll(st: State): string {
    Render(DomainHeader + AllRows(st.defined, st.running, 0))
  }

  /** `virsh list --state-running`. */
  function RenderRunning(st: State): string {
    Render(DomainHeader + RunningRows(st.defined, st.running, 0))
  }

  /** `virsh vol-list --pool default`. */
  function RenderVolumes(st: State): string {
    Render(VolumeHeader + VolumeRows(st.volumes))
  }

  /** The hypervisor and the local system as the tools see them. */
  class Host {
    var w: World
    const env: Env

    constructor(env: Env, st: State)
      ensures this.env == env && w == World(st, [])
    {
      this.env := env;
      w := World(st, []);
    }

    /** Runs one command and reports its outcome. */
    method Call(c: Call) returns (out: Outcome)
      modifies this
      ensures (w, out) == Run(env, old(w), c)
    {
      var r := Run(env, w, c);
      w := r.0;
      out := r.1;
    }

    /** `check_call`. */
    method CheckCall(c: Call) returns (s: Status)
      modifies this
      ensures (w, s) == Check(env, old(w), c)
    {
      var out := Call(c);
      s := if out.Failed? then Raised(CallFailed(c)) else Ok;
    }

    /** `check_output` of a listing. */
    method Query(c: Call) returns (text: string)
      requires c.ListAll? || c.ListRunning? || c.VolList?
      modifies this
      ensures (w, text) == Output(env, old(w), c)
    {
      ghost var r := Output(env, w, c);
      var out := Call(c);
      text := out.text;
    }
  }
}
