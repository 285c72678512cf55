/** The action executor of libvirt-compose.py: `send_text`, which types text into a domain
    one `virsh send-key` per character, and `execute`, which checks a list of actions and
    then runs them against a domain. */
module Executor {
  import opened Text
  import opened Wrappers
  import opened Keycodes
  import opened Hypervisor
  import opened Lease

  /** An action of a build file or an operations file. The text of a `TypeAction` is the
      text after `$SSH_KEY` substitution. */
  datatype Action =
    | SleepAction(seconds: int)
    | TypeAction(text: string)
    | ScpAction(user: string, src: string, dst: string)
    | SshAction(user: string, command: string)
    | SshfsAction(user: string, src: string, dst: string)

  const SshOptions: seq<string> := ["-oStrictHostKeyChecking=no", "-oUserKnownHostsFile=/dev/null"]

  /** The ssh command line that mounts `src` of this host at `dst` of the guest. */
  function SshfsArgv(user: string, ip: string, src: string, dst: string): seq<string> {
    ["ssh"] + SshOptions + [user + "@" + ip, "sshfs", ":" + src, dst, "-oslave"]
  }

  // ---------------------------------------------------------------------------
  // send_text

  /** `send_text`: one `send-key` of the character's key symbols per character; a character
      outside the table raises `KeyError`, a failing `send-key` raises. */
  function SendTextSpec(env: Env, w: World, name: string, t: string): (r: (World, Status))
    decreases |t|
  {
    if t == [] then (w, Ok)
    else if t[0] !in KeyCodes then (w, Raised(CharMissing(t[0])))
    else
      var (w1, s) := Check(env, w, SendKey(name, Symbols(t[0])));
      if s.Raised? then (w1, s) else SendTextSpec(env, w1, name, t[1..])
  }

  method SendText(h: Host, name: string, text: string) returns (s: Status)
    modifies h
    ensures (h.w, s) == SendTextSpec(h.env, old(h.w), name, text)
  {
    ghost var goal := SendTextSpec(h.env, h.w, name, text);
    var i := 0;
    while i < |text|
      invariant 0 <= i <= |text|
      invariant SendTextSpec(h.env, h.w, name, text[i..]) == goal
    {
      var c := text[i];
      assert text[i..][0] == c && text[i..][1..] == text[i + 1..];
      if c !in KeyCodes {
        return Raised(CharMissing(c));
      }
      s := h.CheckCall(SendKey(name, Symbols(c)));
      if s.Raised? {
        return;
      }
      i := i + 1;
    }
    return Ok;
  }

  // ---------------------------------------------------------------------------
  // The pre-flight scan

  /** The characters of `t` the key table lacks. */
  function MissingIn(t: string): set<char>
  {
    if t == [] then {} else MissingIn(t[..|t| - 1]) + (if t[|t| - 1] in KeyCodes then {} else {t[|t| - 1]})
  }

  function MissingOf(a: Action): set<char> {
    if a.TypeAction? then MissingIn(a.text) else {}
  }

  /** The characters of all `TypeAction` texts the key table lacks. */
  function Missing(actions: seq<Action>): set<char>
  {
    if actions == [] then {} else Missing(actions[..|actions| - 1]) + MissingOf(actions[|actions| - 1])
  }

  predicate HasSshfs(actions: seq<Action>) {
    exists i :: 0 <= i < |actions| && actions[i].SshfsAction?
  }

  /** The verdict of the scan: a missing SFTP server is reported as soon as an `SshfsAction`
      is met, so it wins over missing characters, which are reported after the scan. */
  function Preflight(actions: seq<Action>, sftp: Option<string>): Option<Error> {
    if sftp.None? && HasSshfs(actions) then Some(NoSftpServer)
    else if Missing(actions) != {} then Some(MissingChars(Missing(actions)))
    else None
  }

  /** The scan loop of `execute`. */
  method Scan(actions: seq<Action>, sftp: Option<string>) returns (err: Option<Error>)
    ensures err == Preflight(actions, sftp)
  {
    var missing: set<char> := {};
    for i := 0 to |actions|
      invariant missing == Missing(actions[..i])
      invariant sftp.None? ==> forall j :: 0 <= j < i ==> !actions[j].SshfsAction?
    {
      assert actions[..i + 1][..i] == actions[..i];
      if actions[i].TypeAction? {
        var t := actions[i].text;
        for k := 0 to |t|
          invariant missing == Missing(actions[..i]) + MissingIn(t[..k])
        {
          assert t[..k + 1][..k] == t[..k];
          if t[k] !in KeyCodes {
            missing := missing + {t[k]};
          }
        }
        assert t[..|t|] == t;
      }
      if actions[i].SshfsAction? && sftp.None? {
        return Some(NoSftpServer);
      }
    }
    assert actions[..|actions|] == actions;
    if missing != {} {
      return Some(MissingChars(missing));
    }
    return None;
  }

  // ---------------------------------------------------------------------------
  // The action loop

  /** The loop variables of `execute`: the memoised address and the spawned children. */
  datatype Progress = Progress(w: World, status: Status, ip: Option<string>, procs: seq<Pid>)

  /** `if ip is None: ip = get_ip_address(name)`: a failed lookup or an unreadable lease
      table raises. */
  function LookupSpec(env: Env, w: World, name: string, ip: Option<string>): (r: (World, Status, Option<string>))
    ensures r.1.Ok? <==> r.2.Some?
    ensures ip.Some? ==> r == (w, Ok, ip)
  {
    if ip.Some? then (w, Ok, ip)
    else
      var (w1, out) := Run(env, w, IpLookup(name));
      if out.Failed? then (w1, Raised(CallFailed(IpLookup(name))), None)
      else match ParseLease(out.text)
        case None => (w1, Raised(LeaseFormat(out.text)), None)
        case Some(a) => (w1, Ok, Some(a))
  }

  /** Closes the pipe ends in order; the first failing `close` raises. */
  function CloseSpec(env: Env, w: World, fds: seq<Fd>): (r: (World, Status))
    decreases |fds|
  {
    if fds == [] then (w, Ok)
    else
      var (w1, s1) := Check(env, w, Close(fds[0]));
      if s1.Raised? then (w1, s1) else CloseSpec(env, w1, fds[1..])
  }

  /** Once both children run: the pipe ends are closed here, and the ssh child must still be
      running. */
  function SettleSpec(env: Env, w: World, fds: seq<Fd>, client: Pid, ip: string, procs: seq<Pid>): (r: Progress)
    ensures r.ip == Some(ip) && r.procs == procs
  {
    var (w8, s8) := CloseSpec(env, w, fds);
    if s8.Raised? then Progress(w8, s8, Some(ip), procs)
    else
      var (w9, o9) := Run(env, w8, Poll(client));
      Progress(w9, if o9.Failed? then Raised(AssertionFailed) else Ok, Some(ip), procs)
  }

  /** The tunnel: the SFTP server reads pipe 1 and writes pipe 2, the ssh client reads pipe 2
      and writes pipe 1; both are registered for teardown, the four ends are closed here, and
      the ssh child must still be running. */
  function TunnelSpec(env: Env, w: World, server: seq<string>, client: seq<string>,
                      r1: Fd, w1: Fd, r2: Fd, w2: Fd, ip: string, procs: seq<Pid>): (r: Progress)
    ensures r.ip == Some(ip)
  {
    var sv := Spawn(server, r1, w2);
    var (w3, o3) := Run(env, w, sv);
    if o3.Failed? then Progress(w3, Raised(CallFailed(sv)), Some(ip), procs)
    else
      var cl := Spawn(client, r2, w1);
      var (w4, o4) := Run(env, w3, cl);
      var procs1 := procs + o3.ids;
      if o4.Failed? then Progress(w4, Raised(CallFailed(cl)), Some(ip), procs1)
      else SettleSpec(env, w4, [r1, w1, r2, w2], o4.ids[0], ip, procs1 + o4.ids)
  }

  /** The `SshfsAction` branch after the address is known: two pipes, then the tunnel, which
      the `assert SFTP_SERVER is not None` stops when no server is configured. */
  function SshfsSpec(env: Env, w: World, sftp: Option<string>, user: string, ip: string,
                     src: string, dst: string, procs: seq<Pid>): (r: Progress)
    ensures r.ip == Some(ip)
  {
    var (w1, o1) := Run(env, w, OpenPipe);
    var (w2, o2) := Run(env, w1, OpenPipe);
    if sftp.None? then Progress(w2, Raised(AssertionFailed), Some(ip), procs)
    else TunnelSpec(env, w2, [sftp.value], SshfsArgv(user, ip, src, dst),
                    o1.ids[0], o1.ids[1], o2.ids[0], o2.ids[1], ip, procs)
  }

  /** One iteration of the action loop. */
  function StepSpec(env: Env, w: World, name: string, a: Action, ip: Option<string>,
                    procs: seq<Pid>, sftp: Option<string>): Progress
  {
    match a
    case SleepAction(_) => Progress(w, Ok, ip, procs)
    case TypeAction(t) =>
      var (w1, s1) := SendTextSpec(env, w, name, t);
      if s1.Raised? then Progress(w1, s1, ip, procs)
      else
        var (w2, s2) := SendTextSpec(env, w1, name, "\n");
        Progress(w2, s2, ip, procs)
    case ScpAction(user, src, dst) =>
      var (w1, s1, ip1) := LookupSpec(env, w, name, ip);
      if s1.Raised? then Progress(w1, s1, ip1, procs)
      else
        var (w2, s2) := Check(env, w1, Scp(src, user + "@" + ip1.value + ":" + dst));
        Progress(w2, s2, ip1, procs)
    case SshAction(user, command) =>
      var (w1, s1, ip1) := LookupSpec(env, w, name, ip);
      if s1.Raised? then Progress(w1, s1, ip1, procs)
      else
        var (w2, s2) := Check(env, w1, Ssh(user + "@" + ip1.value, command));
        Progress(w2, s2, ip1, procs)
    case SshfsAction(user, src, dst) =>
      var (w1, s1, ip1) := LookupSpec(env, w, name, ip);
      if s1.Raised? then Progress(w1, s1, ip1, procs)
      else SshfsSpec(env, w1, sftp, user, ip1.value, src, dst, procs)
  }

  /** The action loop: the first raising action ends it. */
  function StepsSpec(env: Env, w: World, name: string, actions: seq<Action>, ip: Option<string>,
                     procs: seq<Pid>, sftp: Option<string>): Progress
    decreases |actions|
  {
    if actions == [] then Progress(w, Ok, ip, procs)
    else
      var r := StepSpec(env, w, name, actions[0], ip, procs, sftp);
      if r.status.Raised? then r else StepsSpec(env, r.w, name, actions[1..], r.ip, r.procs, sftp)
  }

  /** The action loop after its first action: that action's progress if it raised, else
      the rest of the loop from there. */
  lemma StepsNext(env: Env, w: World, name: string, actions: seq<Action>, ip: Option<string>,
                  procs: seq<Pid>, sftp: Option<string>, r: Progress)
    requires actions != [] && r == StepSpec(env, w, name, actions[0], ip, procs, sftp)
    ensures StepsSpec(env, w, name, actions, ip, procs, sftp)
      == if r.status.Raised? then r else StepsSpec(env, r.w, name, actions[1..], r.ip, r.procs, sftp)
  {
  }

  /** The teardown loop: each child is terminated, then waited on. */
  function TeardownSpec(env: Env, w: World, procs: seq<Pid>): World
    decreases |procs|
  {
    if procs == [] then w
    else TeardownSpec(env, Run(env, Run(env, w, Terminate(procs[0])).0, Wait(procs[0])).0, procs[1..])
  }

  /** `execute`: the key list, the scan, the action loop, then the teardown, which a raising
      action skips because it is not in a `finally`. */
  function ExecuteSpec(env: Env, w: World, name: string, actions: seq<Action>, sftp: Option<string>): (World, Status) {
    var (w1, o) := Run(env, w, SshAdd);
    if o.Failed? then (w1, Raised(CallFailed(SshAdd)))
    else match Preflight(actions, sftp)
      case Some(e) => (w1, Raised(e))
      case None =>
        var r := StepsSpec(env, w1, name, actions, None, [], sftp);
        if r.status.Raised? then (r.w, r.status) else (TeardownSpec(env, r.w, r.procs), Ok)
  }

  method Lookup(h: Host, name: string, ip: Option<string>) returns (s: Status, ip': Option<string>)
    modifies h
    ensures (h.w, s, ip') == LookupSpec(h.env, old(h.w), name, ip)
  {
    if ip.Some? {
      return Ok, ip;
    }
    var out := h.Call(IpLookup(name));
    if out.Failed? {
      return Raised(CallFailed(IpLookup(name))), None;
    }
    var lease := ParseLease(out.text);
    if lease.None? {
      return Raised(LeaseFormat(out.text)), None;
    }
    return Ok, lease;
  }

  /** `close(r1); close(w1); close(r2); close(w2)`. */
  method CloseAll(h: Host, fds: seq<Fd>) returns (s: Status)
    modifies h
    ensures (h.w, s) == CloseSpec(h.env, old(h.w), fds)
  {
    ghost var goal := CloseSpec(h.env, h.w, fds);
    for i := 0 to |fds|
      invariant CloseSpec(h.env, h.w, fds[i..]) == goal
    {
      assert fds[i..][0] == fds[i] && fds[i..][1..] == fds[i + 1..];
      s := h.CheckCall(Close(fds[i]));
      if s.Raised? {
        return;
      }
    }
    return Ok;
  }

  method Settle(h: Host, fds: seq<Fd>, client: Pid, ip: string, procs: seq<Pid>) returns (r: Progress)
    modifies h
    ensures r.w == h.w && r == SettleSpec(h.env, old(h.w), fds, client, ip, procs)
  {
    var s := CloseAll(h, fds);
    if s.Raised? {
      return Progress(h.w, s, Some(ip), procs);
    }
    var o := h.Call(Poll(client));
    return Progress(h.w, if o.Failed? then Raised(AssertionFailed) else Ok, Some(ip), procs);
  }

  method Tunnel(h: Host, server: seq<string>, client: seq<string>, r1: Fd, w1: Fd, r2: Fd, w2: Fd,
                ip: string, procs: seq<Pid>) returns (r: Progress)
    modifies h
    ensures r.w == h.w && r == TunnelSpec(h.env, old(h.w), server, client, r1, w1, r2, w2, ip, procs)
  {
    var sv := Spawn(server, r1, w2);
    var o3 := h.Call(sv);
    if o3.Failed? {
      return Progress(h.w, Raised(CallFailed(sv)), Some(ip), procs);
    }
    var processes := procs + o3.ids;
    var cl := Spawn(client, r2, w1);
    var o4 := h.Call(cl);
    if o4.Failed? {
      return Progress(h.w, Raised(CallFailed(cl)), Some(ip), processes);
    }
    r := Settle(h, [r1, w1, r2, w2], o4.ids[0], ip, processes + o4.ids);
  }

  method Sshfs(h: Host, sftp: Option<string>, user: string, ip: string, src: string, dst: string,
               procs: seq<Pid>) returns (r: Progress)
    modifies h
    ensures r.w == h.w && r == SshfsSpec(h.env, old(h.w), sftp, user, ip, src, dst, procs)
  {
    var o1 := h.Call(OpenPipe);
    var o2 := h.Call(OpenPipe);
    if sftp.None? {
      return Progress(h.w, Raised(AssertionFailed), Some(ip), procs);
    }
    r := Tunnel(h, [sftp.value], SshfsArgv(user, ip, src, dst), o1.ids[0], o1.ids[1], o2.ids[0], o2.ids[1],
                ip, procs);
  }

  /** A `Type` action: the text, then a newline. */
  method TypeStep(h: Host, name: string, t: string, ip: Option<string>, procs: seq<Pid>,
                  sftp: Option<string>) returns (r: Progress)
    modifies h
    ensures r.w == h.w && r == StepSpec(h.env, old(h.w), name, TypeAction(t), ip, procs, sftp)
  {
    var s := SendText(h, name, t);
    if s.Ok? {
      s := SendText(h, name, "\n");
    }
    r := Progress(h.w, s, ip, procs);
  }

  lemma ScpStepSpec(env: Env, w: World, name: string, user: string, src: string, dst: string,
                      ip: Option<string>, procs: seq<Pid>, sftp: Option<string>)
    ensures var (w1, s1, ip1) := LookupSpec(env, w, name, ip);
      StepSpec(env, w, name, ScpAction(user, src, dst), ip, procs, sftp)
        == if s1.Raised? then Progress(w1, s1, ip1, procs)
           else var (w2, s2) := Check(env, w1, Scp(src, user + "@" + ip1.value + ":" + dst)); Progress(w2, s2, ip1, procs)
  {
  }

  /** An `Scp` action: the address, then the copy. */
  method ScpStep(h: Host, name: string, user: string, src: string, dst: string, ip: Option<string>,
                 procs: seq<Pid>, sftp: Option<string>) returns (r: Progress)
    modifies h
    ensures r.w == h.w && r == StepSpec(h.env, old(h.w), name, ScpAction(user, src, dst), ip, procs, sftp)
  {
    ghost var w0 := h.w;
    var s, ip1 := Lookup(h, name, ip);
    ScpStepSpec(h.env, w0, name, user, src, dst, ip, procs, sftp);
    if s.Ok? {
      s := h.CheckCall(Scp(src, user + "@" + ip1.value + ":" + dst));
    }
    r := Progress(h.w, s, ip1, procs);
  }

  lemma SshStepSpec(env: Env, w: World, name: string, user: string, command: string,
                      ip: Option<string>, procs: seq<Pid>, sftp: Option<string>)
    ensures var (w1, s1, ip1) := LookupSpec(env, w, name, ip);
      StepSpec(env, w, name, SshAction(user, command), ip, procs, sftp)
        == if s1.Raised? then Progress(w1, s1, ip1, procs)
           else var (w2, s2) := Check(env, w1, Ssh(user + "@" + ip1.value, command)); Progress(w2, s2, ip1, procs)
  {
  }

  /** An `Ssh` action: the address, then the remote command. */
  method SshStep(h: Host, name: string, user: string, command: string, ip: Option<string>,
                 procs: seq<Pid>, sftp: Option<string>) returns (r: Progress)
    modifies h
    ensures r.w == h.w && r == StepSpec(h.env, old(h.w), name, SshAction(user, command), ip, procs, sftp)
  {
    ghost var w0 := h.w;
    var s, ip1 := Lookup(h, name, ip);
    SshStepSpec(h.env, w0, name, user, command, ip, procs, sftp);
    if s.Ok? {
      s := h.CheckCall(Ssh(user + "@" + ip1.value, command));
    }
    r := Progress(h.w, s, ip1, procs);
  }

  lemma SshfsStepSpec(env: Env, w: World, name: string, user: string, src: string, dst: string,
                      ip: Option<string>, procs: seq<Pid>, sftp: Option<string>)
    ensures var (w1, s1, ip1) := LookupSpec(env, w, name, ip);
      StepSpec(env, w, name, SshfsAction(user, src, dst), ip, procs, sftp)
        == if s1.Raised? then Progress(w1, s1, ip1, procs) else SshfsSpec(env, w1, sftp, user, ip1.value, src, dst, procs)
  {
  }

  /** An `Sshfs` action: the address, then the mount. */
  method SshfsStep(h: Host, name: string, user: string, src: string, dst: string, ip: Option<string>,
                   procs: seq<Pid>, sftp: Option<string>) returns (r: Progress)
    modifies h
    ensures r.w == h.w && r == StepSpec(h.env, old(h.w), name, SshfsAction(user, src, dst), ip, procs, sftp)
  {
    ghost var w0 := h.w;
    var s, ip1 := Lookup(h, name, ip);
    SshfsStepSpec(h.env, w0, name, user, src, dst, ip, procs, sftp);
    if s.Raised? {
      r := Progress(h.w, s, ip1, procs);
    } else {
      r := Sshfs(h, sftp, user, ip1.value, src, dst, procs);
    }
  }

  method Step(h: Host, name: string, a: Action, ip: Option<string>, procs: seq<Pid>,
              sftp: Option<string>) returns (r: Progress)
    modifies h
    ensures r.w == h.w && r == StepSpec(h.env, old(h.w), name, a, ip, procs, sftp)
  {
    match a
    case SleepAction(_) =>
      r := Progress(h.w, Ok, ip, procs);
    case TypeAction(t) =>
      r := TypeStep(h, name, t, ip, procs, sftp);
    case ScpAction(user, src, dst) =>
      r := ScpStep(h, name, user, src, dst, ip, procs, sftp);
    case SshAction(user, command) =>
      r := SshStep(h, name, user, command, ip, procs, sftp);
    case SshfsAction(user, src, dst) =>
      r := SshfsStep(h, name, user, src, dst, ip, procs, sftp);
  }

  /** The action loop of `execute`. */
  method Steps(h: Host, name: string, actions: seq<Action>, sftp: Option<string>) returns (r: Progress)
    modifies h
    ensures r.w == h.w && r == StepsSpec(h.env, old(h.w), name, actions, None, [], sftp)
  {
    ghost var start := h.w;
    var ip: Option<string> := None;
    var procs: seq<Pid> := [];
    var i := 0;
    while i < |actions|
      invariant 0 <= i <= |actions|
      invariant StepsSpec(h.env, h.w, name, actions[i..], ip, procs, sftp)
        == StepsSpec(h.env, start, name, actions, None, [], sftp)
    {
      assert actions[i..][0] == actions[i] && actions[i..][1..] == actions[i + 1..];
      ghost var w0, ip0, procs0 := h.w, ip, procs;
      r := Step(h, name, actions[i], ip, procs, sftp);
      StepsNext(h.env, w0, name, actions[i..], ip0, procs0, sftp, r);
      if r.status.Raised? {
        return;
      }
      ip, procs := r.ip, r.procs;
      i := i + 1;
    }
    r := Progress(h.w, Ok, ip, procs);
  }

  /** The teardown loop of `execute`. */
  method Teardown(h: Host, procs: seq<Pid>)
    modifies h
    ensures h.w == TeardownSpec(h.env, old(h.w), procs)
  {
    ghost var start := h.w;
    for j := 0 to |procs|
      invariant TeardownSpec(h.env, h.w, procs[j..]) == TeardownSpec(h.env, start, procs)
    {
      assert procs[j..][0] == procs[j] && procs[j..][1..] == procs[j + 1..];
      var _ := h.Call(Terminate(procs[j]));
      var _ := h.Call(Wait(procs[j]));
    }
  }

  /** `execute`. */
  method Execute(h: Host, name: string, actions: seq<Action>, sftp: Option<string>) returns (s: Status)
    modifies h
    ensures (h.w, s) == ExecuteSpec(h.env, old(h.w), name, actions, sftp)
  {
    var o := h.Call(SshAdd);
    if o.Failed? {
      return Raised(CallFailed(SshAdd));
    }
    var err := Scan(actions, sftp);
    if err.Some? {
      return Raised(err.value);
    }
    var r := Steps(h, name, actions, sftp);
    if r.status.Raised? {
      return r.status;
    }
    Teardown(h, r.procs);
    return Ok;
  }
}
