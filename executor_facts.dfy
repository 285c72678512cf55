/** Properties of the action executor: what the pre-flight scan rejects, the keystrokes
    typed, the pipes and children of an sshfs mount, the teardown, and the discipline of
    `execute` as a whole (one address lookup at most, before any network command; the
    domains and volumes untouched; children left running when an action raises). */
module ExecutorFacts {
  import opened Text
  import opened Wrappers
  import opened Keycodes
  import opened Hypervisor
  import opened Executor

  // ---------------------------------------------------------------------------
  // The pre-flight scan

  /** A character is reported missing exactly when the text holds it and the table lacks it. */
  lemma {:induction false} MissingInExact(t: string, c: char)
    ensures c in MissingIn(t) <==> c in t && c !in KeyCodes
    decreases |t|
  {
    if t != [] {
      var init := t[..|t| - 1];
      MissingInExact(init, c);
      assert t == init + [t[|t| - 1]];
    }
  }

  /** The characters the scan collects are those of some `TypeAction` that the table lacks. */
  lemma {:induction false} MissingExact(actions: seq<Action>, c: char)
    ensures c in Missing(actions) <==>
      (exists i :: 0 <= i < |actions| && actions[i].TypeAction? && c in actions[i].text) && c !in KeyCodes
    decreases |actions|
  {
    if actions != [] {
      var init := actions[..|actions| - 1];
      var a := actions[|actions| - 1];
      MissingExact(init, c);
      if a.TypeAction? {
        MissingInExact(a.text, c);
      }
      if c in Missing(actions) {
        if c in Missing(init) {
          var i :| 0 <= i < |init| && init[i].TypeAction? && c in init[i].text;
          assert actions[i] == init[i];
        } else {
          assert actions[|actions| - 1] == a;
        }
      } else {
        forall i | 0 <= i < |actions| && actions[i].TypeAction? && c in actions[i].text
          ensures c in KeyCodes
        {
          if i < |init| {
            assert init[i] == actions[i];
          }
        }
      }
    }
  }

  /** Every character of every `TypeAction` text is in the key table. */
  predicate AllEncodable(actions: seq<Action>) {
    forall i, c :: 0 <= i < |actions| && actions[i].TypeAction? && c in actions[i].text ==> c in KeyCodes
  }

  /** The scan lets the actions through exactly when a server is configured or no action
      mounts, and every character can be typed. */
  lemma PreflightExact(actions: seq<Action>, sftp: Option<string>)
    ensures Preflight(actions, sftp) == None <==> (sftp.Some? || !HasSshfs(actions)) && AllEncodable(actions)
  {
    if AllEncodable(actions) {
      forall c | c in Missing(actions) ensures false {
        MissingExact(actions, c);
      }
    } else {
      var i, c :| 0 <= i < |actions| && actions[i].TypeAction? && c in actions[i].text && c !in KeyCodes;
      MissingExact(actions, c);
    }
  }

  /** A rejected action list issues nothing after `ssh-add -L` and changes nothing. */
  lemma PreflightIssuesNothing(env: Env, w: World, name: string, actions: seq<Action>, sftp: Option<string>)
    requires Preflight(actions, sftp).Some?
    ensures ExecuteSpec(env, w, name, actions, sftp).0 == World(w.st, w.trace + [SshAdd])
    ensures ExecuteSpec(env, w, name, actions, sftp).1 ==
      Raised(if |w.trace| in env.faults then CallFailed(SshAdd) else Preflight(actions, sftp).value)
  {
  }

  // ---------------------------------------------------------------------------
  // Typing

  /** The environment fails no command from now on. */
  predicate Quiet(env: Env, w: World) {
    forall p :: p in env.faults ==> p < |w.trace|
  }

  /** Every character of `t` is in the key table. */
  predicate Typable(t: string) {
    forall i :: 0 <= i < |t| ==> t[i] in KeyCodes
  }

  lemma AppendTwo<T>(a: seq<T>, x: T, y: T)
    ensures a + [x] + [y] == a + [x, y]
  {
  }

  lemma AddTwo<T>(a: set<T>, x: T, y: T)
    ensures a + {x} + {y} == a + {x, y}
  {
  }

  /** The members of a sequence. */
  function Elems(s: seq<nat>): (r: set<nat>)
    ensures forall x :: x in r <==> x in s
  {
    set x | x in s
  }

  lemma SetOfFour(a: nat, b: nat, c: nat, d: nat)
    ensures Elems([a, b, c, d]) == {a, b, c, d}
  {
  }

  lemma RemoveFirst(a: set<nat>, s: seq<nat>)
    requires s != []
    ensures a - {s[0]} - Elems(s[1..]) == a - Elems(s)
  {
  }

  lemma AppendAssoc<T>(a: seq<T>, b: seq<T>, c: seq<T>)
    ensures a + (b + c) == (a + b) + c
  {
  }

  /** The keystrokes of a text: one `send-key` per character. */
  function KeyCalls(name: string, t: string): (cs: seq<Call>)
    requires Typable(t)
    ensures |cs| == |t| && forall i :: 0 <= i < |t| ==> cs[i] == SendKey(name, Symbols(t[i]))
  {
    if t == [] then [] else [SendKey(name, Symbols(t[0]))] + KeyCalls(name, t[1..])
  }

  /** With no failures, a text of known characters is typed one `send-key` per character and
      changes nothing else. */
  lemma {:induction false} SendTextTypes(env: Env, w: World, name: string, t: string)
    requires Quiet(env, w) && Typable(t)
    ensures SendTextSpec(env, w, name, t) == (World(w.st, w.trace + KeyCalls(name, t)), Ok)
    decreases |t|
  {
    if t != [] {
      var w1 := World(w.st, w.trace + [SendKey(name, Symbols(t[0]))]);
      RunSilent(env, w, SendKey(name, Symbols(t[0])));
      assert Check(env, w, SendKey(name, Symbols(t[0]))) == (w1, Ok);
      assert SendTextSpec(env, w, name, t) == SendTextSpec(env, w1, name, t[1..]);
      assert Typable(t[1..]) by {
        forall i | 0 <= i < |t[1..]| ensures t[1..][i] in KeyCodes {
          assert t[1..][i] == t[i + 1];
        }
      }
      SendTextTypes(env, w1, name, t[1..]);
      assert KeyCalls(name, t) == [SendKey(name, Symbols(t[0]))] + KeyCalls(name, t[1..]);
      AppendAssoc(w.trace, [SendKey(name, Symbols(t[0]))], KeyCalls(name, t[1..]));
    } else {
      assert w.trace + [] == w.trace;
    }
  }

  /** Typing stops at the first character outside the table and raises for it, after
      typing the characters before it. */
  lemma {:induction false} SendTextStops(env: Env, w: World, name: string, u: string, c: char, v: string)
    requires Quiet(env, w) && Typable(u) && c !in KeyCodes
    ensures SendTextSpec(env, w, name, u + [c] + v) ==
      (World(w.st, w.trace + KeyCalls(name, u)), Raised(CharMissing(c)))
    decreases |u|
  {
    var t := u + [c] + v;
    if u == [] {
      assert t[0] == c;
      assert w.trace + [] == w.trace;
    } else {
      assert t[0] == u[0] && t[1..] == u[1..] + [c] + v;
      var w1 := World(w.st, w.trace + [SendKey(name, Symbols(u[0]))]);
      RunSilent(env, w, SendKey(name, Symbols(u[0])));
      assert Check(env, w, SendKey(name, Symbols(u[0]))) == (w1, Ok);
      assert SendTextSpec(env, w, name, t) == SendTextSpec(env, w1, name, t[1..]);
      assert Typable(u[1..]) by {
        forall i | 0 <= i < |u[1..]| ensures u[1..][i] in KeyCodes {
          assert u[1..][i] == u[i + 1];
        }
      }
      SendTextStops(env, w1, name, u[1..], c, v);
      assert KeyCalls(name, u) == [SendKey(name, Symbols(u[0]))] + KeyCalls(name, u[1..]);
      AppendAssoc(w.trace, [SendKey(name, Symbols(u[0]))], KeyCalls(name, u[1..]));
    }
  }

  /** A `TypeAction` types its text and then presses Enter. */
  lemma TypeActionTypes(env: Env, w: World, name: string, t: string, ip: Option<string>,
                        procs: seq<Pid>, sftp: Option<string>)
    requires Quiet(env, w) && Typable(t)
    ensures StepSpec(env, w, name, TypeAction(t), ip, procs, sftp) ==
      Progress(World(w.st, w.trace + KeyCalls(name, t) + [SendKey(name, ["KEY_ENTER"])]), Ok, ip, procs)
  {
    SendTextTypes(env, w, name, t);
    var w1 := World(w.st, w.trace + KeyCalls(name, t));
    EnterSymbol();
    assert Typable("\n");
    SendTextTypes(env, w1, name, "\n");
    assert KeyCalls(name, "\n") == [SendKey(name, ["KEY_ENTER"])];
  }

  // ---------------------------------------------------------------------------
  // sshfs

  function CloseCalls(fds: seq<Fd>): (cs: seq<Call>)
    ensures |cs| == |fds| && forall i :: 0 <= i < |fds| ==> cs[i] == Close(fds[i])
  {
    if fds == [] then [] else [Close(fds[0])] + CloseCalls(fds[1..])
  }

  predicate DistinctFds(fds: seq<Fd>) {
    forall i, j :: 0 <= i < j < |fds| ==> fds[i] != fds[j]
  }

  /** Closing distinct open ends issues one `close` each, in order, and leaves none of them
      open. */
  lemma {:induction false} CloseAllCloses(env: Env, w: World, fds: seq<Fd>)
    requires DistinctFds(fds) && forall i :: 0 <= i < |fds| ==> fds[i] in w.st.open
    ensures CloseSpec(env, w, fds) ==
      (World(w.st.(open := w.st.open - Elems(fds)), w.trace + CloseCalls(fds)), Ok)
    decreases |fds|
  {
    if fds == [] {
      assert w.trace + [] == w.trace;
      assert w.st.open - Elems(fds) == w.st.open;
    } else {
      var w1 := World(w.st.(open := w.st.open - {fds[0]}), w.trace + [Close(fds[0])]);
      RunClose(env, w, fds[0]);
      assert CloseSpec(env, w, fds) == CloseSpec(env, w1, fds[1..]);
      forall i | 0 <= i < |fds[1..]| ensures fds[1..][i] in w1.st.open {
        assert fds[1..][i] == fds[i + 1];
      }
      CloseAllCloses(env, w1, fds[1..]);
      assert CloseCalls(fds) == [Close(fds[0])] + CloseCalls(fds[1..]);
      AppendAssoc(w.trace, [Close(fds[0])], CloseCalls(fds[1..]));
      RemoveFirst(w.st.open, fds);
    }
  }

  /** With no failures, settling closes each distinct open end once and finds the client
      running. */
  lemma SettleCloses(env: Env, w: World, fds: seq<Fd>, client: Pid, ip: string, procs: seq<Pid>)
    requires Quiet(env, w) && DistinctFds(fds) && forall i :: 0 <= i < |fds| ==> fds[i] in w.st.open
    ensures SettleSpec(env, w, fds, client, ip, procs) ==
      Progress(World(w.st.(open := w.st.open - Elems(fds)), w.trace + CloseCalls(fds) + [Poll(client)]),
               Ok, Some(ip), procs)
  {
    CloseAllCloses(env, w, fds);
    var w8 := World(w.st.(open := w.st.open - Elems(fds)), w.trace + CloseCalls(fds));
    RunSilent(env, w8, Poll(client));
  }

  /** The tunnel's successful outcome from `w`: the server reads `r1` and writes `w2`, the
      client reads `r2` and writes `w1`, both are registered and alive, the four ends are
      closed here and the client is polled. */
  predicate Tunnelled(w: World, r: Progress, server: seq<string>, client: seq<string>,
                      r1: Fd, w1: Fd, r2: Fd, w2: Fd, ip: string, procs: seq<Pid>)
  {
    var p := |w.trace|;
    r.status == Ok && r.ip == Some(ip) && r.procs == procs + [p, p + 1]
    && r.w.trace == w.trace + [Spawn(server, r1, w2), Spawn(client, r2, w1)]
                    + CloseCalls([r1, w1, r2, w2]) + [Poll(p + 1)]
    && r.w.st == w.st.(open := w.st.open - {r1, w1, r2, w2},
                       procs := w.st.procs[p := Proc(server, r1, w2)][p + 1 := Proc(client, r2, w1)],
                       alive := w.st.alive + {p, p + 1})
  }

  /** With no failures and four distinct open ends, the tunnel is set up as intended. */
  lemma TunnelWires(env: Env, w: World, server: seq<string>, client: seq<string>,
                    r1: Fd, w1: Fd, r2: Fd, w2: Fd, ip: string, procs: seq<Pid>)
    requires Quiet(env, w) && DistinctFds([r1, w1, r2, w2])
    requires r1 in w.st.open && w1 in w.st.open && r2 in w.st.open && w2 in w.st.open
    ensures Tunnelled(w, TunnelSpec(env, w, server, client, r1, w1, r2, w2, ip, procs),
                      server, client, r1, w1, r2, w2, ip, procs)
  {
    var p := |w.trace|;
    var sv, cl := Spawn(server, r1, w2), Spawn(client, r2, w1);
    var w3 := World(w.st.(procs := w.st.procs[p := Proc(server, r1, w2)], alive := w.st.alive + {p}),
                    w.trace + [sv]);
    RunSpawn(env, w, server, r1, w2);
    var w4 := World(w3.st.(procs := w3.st.procs[p + 1 := Proc(client, r2, w1)], alive := w3.st.alive + {p + 1}),
                    w3.trace + [cl]);
    RunSpawn(env, w3, client, r2, w1);
    var fds := [r1, w1, r2, w2];
    assert procs + [p] + [p + 1] == procs + [p, p + 1];
    assert TunnelSpec(env, w, server, client, r1, w1, r2, w2, ip, procs)
      == SettleSpec(env, w4, fds, p + 1, ip, procs + [p, p + 1]);
    SettleCloses(env, w4, fds, p + 1, ip, procs + [p, p + 1]);
    SetOfFour(r1, w1, r2, w2);
    AppendTwo(w.trace, sv, cl);
    AddTwo(w.st.alive, p, p + 1);
  }

  /** A mount opens two pipes, numbered after their trace positions, and sets up the tunnel
      over them: the SFTP server reads the first pipe and writes the second, the ssh client
      the other way round (`TunnelWires` says what the tunnel then does). */
  lemma SshfsOpensPipes(env: Env, w: World, server: string, user: string, ip: string,
                        src: string, dst: string, procs: seq<Pid>)
    ensures var p := |w.trace|;
      SshfsSpec(env, w, Some(server), user, ip, src, dst, procs)
        == TunnelSpec(env, World(w.st.(open := w.st.open + {2 * p, 2 * p + 1} + {2 * p + 2, 2 * p + 3}),
                                 w.trace + [OpenPipe, OpenPipe]),
                      [server], SshfsArgv(user, ip, src, dst), 2 * p, 2 * p + 1, 2 * p + 2, 2 * p + 3, ip, procs)
  {
    RunTwoPipes(env, w);
  }

  /** Without a configured server the mount fails after opening both pipes. */
  lemma SshfsWithoutServer(env: Env, w: World, user: string, ip: string, src: string, dst: string,
                           procs: seq<Pid>)
    ensures var p := |w.trace|;
      var r := SshfsSpec(env, w, None, user, ip, src, dst, procs);
      r.status == Raised(AssertionFailed) && r.procs == procs && r.w.trace == w.trace + [OpenPipe, OpenPipe]
      && r.w.st.open == w.st.open + {2 * p, 2 * p + 1, 2 * p + 2, 2 * p + 3}
  {
  }

  // ---------------------------------------------------------------------------
  // Teardown

  function TeardownCalls(procs: seq<Pid>): seq<Call> {
    if procs == [] then [] else [Terminate(procs[0]), Wait(procs[0])] + TeardownCalls(procs[1..])
  }


  /** The teardown terminates and waits on each child in spawn order. */
  lemma {:induction false} TeardownTerminates(env: Env, w: World, procs: seq<Pid>)
    ensures TeardownSpec(env, w, procs) ==
      World(w.st.(alive := w.st.alive - Elems(procs)), w.trace + TeardownCalls(procs))
    decreases |procs|
  {
    if procs == [] {
      assert w.trace + [] == w.trace;
      assert w.st.alive - Elems(procs) == w.st.alive;
    } else {
      var w1 := World(w.st.(alive := w.st.alive - {procs[0]}), w.trace + [Terminate(procs[0]), Wait(procs[0])]);
      RunTerminate(env, w, procs[0]);
      RunWait(env, Run(env, w, Terminate(procs[0])).0, procs[0]);
      assert w.trace + [Terminate(procs[0])] + [Wait(procs[0])] == w1.trace;
      assert TeardownSpec(env, w, procs) == TeardownSpec(env, w1, procs[1..]);
      TeardownTerminates(env, w1, procs[1..]);
      AppendAssoc(w.trace, [Terminate(procs[0]), Wait(procs[0])], TeardownCalls(procs[1..]));
      RemoveFirst(w.st.alive, procs);
    }
  }

  // ---------------------------------------------------------------------------
  // The discipline of `execute`

  /** Commands that reach the guest over the network, or start a child for it. */
  predicate Networked(c: Call) {
    c.Scp? || c.Ssh? || c.Spawn?
  }

  /** The commands the executor issues. */
  predicate GuestCall(c: Call) {
    c.SshAdd? || c.SendKey? || c.IpLookup? || c.Scp? || c.Ssh? || c.OpenPipe? || c.Spawn?
    || c.Close? || c.Poll? || c.Terminate? || c.Wait?
  }

  /** Whether the address is known after the commands issued since position `n`, when `l`
      says whether it was known at `n`. */
  function LookedSince(tr: seq<Call>, n: nat, l: bool): bool
    requires n <= |tr|
    decreases |tr|
  {
    if |tr| == n then l else LookedSince(tr[..|tr| - 1], n, l) || tr[|tr| - 1].IpLookup?
  }

  /** Since position `n`: no address lookup once the address is known, and no network command
      before it is. */
  predicate DisciplinedSince(tr: seq<Call>, n: nat, l: bool)
    requires n <= |tr|
    decreases |tr|
  {
    |tr| == n ||
      (var init := tr[..|tr| - 1];
       var c := tr[|tr| - 1];
       DisciplinedSince(init, n, l)
       && (c.IpLookup? ==> !LookedSince(init, n, l))
       && (Networked(c) ==> LookedSince(init, n, l)))
  }

  /** The domains, their states and the images, which the executor never touches. */
  function Domains(st: State): (seq<string>, set<string>, map<string, nat>, seq<string>, set<string>) {
    (st.defined, st.running, st.pending, st.volumes, st.files)
  }

  predicate Extends(w0: World, w: World) {
    |w0.trace| <= |w.trace| && w.trace[..|w0.trace|] == w0.trace
  }

  /** Since `w0`: the trace only grew, the domains are as they were, and the commands added
      keep the lookup discipline. */
  predicate Kept(w0: World, w: World, l: bool) {
    Extends(w0, w) && Domains(w.st) == Domains(w0.st) && DisciplinedSince(w.trace, |w0.trace|, l)
  }

  /** Since `w0`: no child was terminated. */
  predicate Spared(w0: World, w: World) {
    w0.st.alive <= w.st.alive && forall i :: |w0.trace| <= i < |w.trace| ==> !w.trace[i].Terminate?
  }

  lemma KeptFromStart(w: World, l: bool)
    ensures Kept(w, w, l) && Spared(w, w) && LookedSince(w.trace, |w.trace|, l) == l
  {
    assert w.trace[..|w.trace|] == w.trace;
  }

  lemma RunKept(env: Env, w0: World, w: World, c: Call, l: bool)
    requires Kept(w0, w, l) && GuestCall(c)
    requires c.IpLookup? ==> !LookedSince(w.trace, |w0.trace|, l)
    requires Networked(c) ==> LookedSince(w.trace, |w0.trace|, l)
    ensures var w' := Run(env, w, c).0;
      Kept(w0, w', l)
      && LookedSince(w'.trace, |w0.trace|, l) == (LookedSince(w.trace, |w0.trace|, l) || c.IpLookup?)
      && (Spared(w0, w) && !c.Terminate? ==> Spared(w0, w'))
  {
    var w' := Run(env, w, c).0;
    assert w'.trace[..|w'.trace| - 1] == w.trace;
    assert w'.trace[..|w0.trace|] == w.trace[..|w0.trace|];
  }

  lemma {:induction false} SendTextKept(env: Env, w0: World, w: World, name: string, t: string, l: bool)
    requires Kept(w0, w, l)
    ensures var w' := SendTextSpec(env, w, name, t).0;
      Kept(w0, w', l) && LookedSince(w'.trace, |w0.trace|, l) == LookedSince(w.trace, |w0.trace|, l)
      && (Spared(w0, w) ==> Spared(w0, w'))
    decreases |t|
  {
    if t != [] && t[0] in KeyCodes {
      var c := SendKey(name, Symbols(t[0]));
      RunKept(env, w0, w, c, l);
      var w1 := Run(env, w, c).0;
      SendTextKept(env, w0, w1, name, t[1..], l);
    }
  }

  lemma LookupKept(env: Env, w0: World, w: World, name: string, ip: Option<string>, l: bool)
    requires Kept(w0, w, l) && LookedSince(w.trace, |w0.trace|, l) == ip.Some?
    ensures var (w', s, ip') := LookupSpec(env, w, name, ip);
      Kept(w0, w', l) && (Spared(w0, w) ==> Spared(w0, w'))
      && (s.Ok? ==> ip'.Some? && LookedSince(w'.trace, |w0.trace|, l))
  {
    if ip.None? {
      RunKept(env, w0, w, IpLookup(name), l);
    }
  }

  lemma {:induction false} CloseKept(env: Env, w0: World, w: World, fds: seq<Fd>, l: bool)
    requires Kept(w0, w, l)
    ensures var w' := CloseSpec(env, w, fds).0;
      Kept(w0, w', l) && LookedSince(w'.trace, |w0.trace|, l) == LookedSince(w.trace, |w0.trace|, l)
      && (Spared(w0, w) ==> Spared(w0, w'))
    decreases |fds|
  {
    if fds != [] {
      RunKept(env, w0, w, Close(fds[0]), l);
      var w1 := Check(env, w, Close(fds[0])).0;
      CloseKept(env, w0, w1, fds[1..], l);
    }
  }

  lemma SettleKept(env: Env, w0: World, w: World, fds: seq<Fd>, client: Pid, ip: string,
                   procs: seq<Pid>, l: bool)
    requires Kept(w0, w, l) && LookedSince(w.trace, |w0.trace|, l)
    ensures var r := SettleSpec(env, w, fds, client, ip, procs);
      Kept(w0, r.w, l) && LookedSince(r.w.trace, |w0.trace|, l) && (Spared(w0, w) ==> Spared(w0, r.w))
  {
    CloseKept(env, w0, w, fds, l);
    RunKept(env, w0, CloseSpec(env, w, fds).0, Poll(client), l);
  }

  lemma TunnelKept(env: Env, w0: World, w: World, server: seq<string>, client: seq<string>,
                   r1: Fd, w1: Fd, r2: Fd, w2: Fd, ip: string, procs: seq<Pid>, l: bool)
    requires Kept(w0, w, l) && LookedSince(w.trace, |w0.trace|, l)
    ensures var r := TunnelSpec(env, w, server, client, r1, w1, r2, w2, ip, procs);
      Kept(w0, r.w, l) && LookedSince(r.w.trace, |w0.trace|, l) && (Spared(w0, w) ==> Spared(w0, r.w))
  {
    var sv := Spawn(server, r1, w2);
    RunKept(env, w0, w, sv, l);
    var (w3, o3) := Run(env, w, sv);
    if o3.Done? {
      var cl := Spawn(client, r2, w1);
      RunKept(env, w0, w3, cl, l);
      var (w4, o4) := Run(env, w3, cl);
      if o4.Done? {
        SettleKept(env, w0, w4, [r1, w1, r2, w2], o4.ids[0], ip, procs + o3.ids + o4.ids, l);
      }
    }
  }

  lemma SshfsKept(env: Env, w0: World, w: World, sftp: Option<string>, user: string, ip: string,
                  src: string, dst: string, procs: seq<Pid>, l: bool)
    requires Kept(w0, w, l) && LookedSince(w.trace, |w0.trace|, l)
    ensures var r := SshfsSpec(env, w, sftp, user, ip, src, dst, procs);
      Kept(w0, r.w, l) && LookedSince(r.w.trace, |w0.trace|, l) && (Spared(w0, w) ==> Spared(w0, r.w))
  {
    var (w1, o1) := Run(env, w, OpenPipe);
    RunKept(env, w0, w, OpenPipe, l);
    var (w2, o2) := Run(env, w1, OpenPipe);
    RunKept(env, w0, w1, OpenPipe, l);
    if sftp.Some? {
      TunnelKept(env, w0, w2, [sftp.value], SshfsArgv(user, ip, src, dst),
                 o1.ids[0], o1.ids[1], o2.ids[0], o2.ids[1], ip, procs, l);
    }
  }

  /** What every action keeps, stated once for the lemmas below. */
  predicate StepKeeps(w0: World, w: World, r: Progress, l: bool) {
    Kept(w0, r.w, l) && (Spared(w0, w) ==> Spared(w0, r.w))
    && (r.status.Ok? ==> LookedSince(r.w.trace, |w0.trace|, l) == r.ip.Some?)
  }

  lemma TypeStepKept(env: Env, w0: World, w: World, name: string, t: string, ip: Option<string>,
                     procs: seq<Pid>, sftp: Option<string>, l: bool)
    requires Kept(w0, w, l) && LookedSince(w.trace, |w0.trace|, l) == ip.Some?
    ensures StepKeeps(w0, w, StepSpec(env, w, name, TypeAction(t), ip, procs, sftp), l)
  {
    SendTextKept(env, w0, w, name, t, l);
    var w1 := SendTextSpec(env, w, name, t).0;
    SendTextKept(env, w0, w1, name, "\n", l);
  }

  lemma ScpStepKept(env: Env, w0: World, w: World, name: string, user: string, src: string, dst: string,
                    ip: Option<string>, procs: seq<Pid>, sftp: Option<string>, l: bool)
    requires Kept(w0, w, l) && LookedSince(w.trace, |w0.trace|, l) == ip.Some?
    ensures StepKeeps(w0, w, StepSpec(env, w, name, ScpAction(user, src, dst), ip, procs, sftp), l)
  {
    LookupKept(env, w0, w, name, ip, l);
    var (w1, s1, ip1) := LookupSpec(env, w, name, ip);
    if s1.Ok? {
      RunKept(env, w0, w1, Scp(src, user + "@" + ip1.value + ":" + dst), l);
    }
  }

  lemma SshStepKept(env: Env, w0: World, w: World, name: string, user: string, command: string,
                    ip: Option<string>, procs: seq<Pid>, sftp: Option<string>, l: bool)
    requires Kept(w0, w, l) && LookedSince(w.trace, |w0.trace|, l) == ip.Some?
    ensures StepKeeps(w0, w, StepSpec(env, w, name, SshAction(user, command), ip, procs, sftp), l)
  {
    LookupKept(env, w0, w, name, ip, l);
    var (w1, s1, ip1) := LookupSpec(env, w, name, ip);
    if s1.Ok? {
      RunKept(env, w0, w1, Ssh(user + "@" + ip1.value, command), l);
    }
  }

  lemma SshfsStepKept(env: Env, w0: World, w: World, name: string, user: string, src: string, dst: string,
                      ip: Option<string>, procs: seq<Pid>, sftp: Option<string>, l: bool)
    requires Kept(w0, w, l) && LookedSince(w.trace, |w0.trace|, l) == ip.Some?
    ensures StepKeeps(w0, w, StepSpec(env, w, name, SshfsAction(user, src, dst), ip, procs, sftp), l)
  {
    LookupKept(env, w0, w, name, ip, l);
    var (w1, s1, ip1) := LookupSpec(env, w, name, ip);
    if s1.Ok? {
      assert StepSpec(env, w, name, SshfsAction(user, src, dst), ip, procs, sftp)
        == SshfsSpec(env, w1, sftp, user, ip1.value, src, dst, procs);
      SshfsKept(env, w0, w1, sftp, user, ip1.value, src, dst, procs, l);
    }
  }

  lemma StepKept(env: Env, w0: World, w: World, name: string, a: Action, ip: Option<string>,
                 procs: seq<Pid>, sftp: Option<string>, l: bool)
    requires Kept(w0, w, l) && LookedSince(w.trace, |w0.trace|, l) == ip.Some?
    ensures StepKeeps(w0, w, StepSpec(env, w, name, a, ip, procs, sftp), l)
  {
    match a
    case SleepAction(_) =>
    case TypeAction(t) => TypeStepKept(env, w0, w, name, t, ip, procs, sftp, l);
    case ScpAction(user, src, dst) => ScpStepKept(env, w0, w, name, user, src, dst, ip, procs, sftp, l);
    case SshAction(user, command) => SshStepKept(env, w0, w, name, user, command, ip, procs, sftp, l);
    case SshfsAction(user, src, dst) => SshfsStepKept(env, w0, w, name, user, src, dst, ip, procs, sftp, l);
  }

  lemma {:induction false} StepsKept(env: Env, w0: World, w: World, name: string, actions: seq<Action>,
                                    ip: Option<string>, procs: seq<Pid>, sftp: Option<string>, l: bool)
    requires Kept(w0, w, l) && LookedSince(w.trace, |w0.trace|, l) == ip.Some?
    ensures var r := StepsSpec(env, w, name, actions, ip, procs, sftp);
      Kept(w0, r.w, l) && (Spared(w0, w) ==> Spared(w0, r.w))
    decreases |actions|
  {
    if actions != [] {
      StepKept(env, w0, w, name, actions[0], ip, procs, sftp, l);
      var r := StepSpec(env, w, name, actions[0], ip, procs, sftp);
      if r.status.Ok? {
        StepsKept(env, w0, r.w, name, actions[1..], r.ip, r.procs, sftp, l);
      }
    }
  }

  lemma {:induction false} TeardownKept(env: Env, w0: World, w: World, procs: seq<Pid>, l: bool)
    requires Kept(w0, w, l)
    ensures Kept(w0, TeardownSpec(env, w, procs), l)
    decreases |procs|
  {
    if procs != [] {
      RunKept(env, w0, w, Terminate(procs[0]), l);
      var w1 := Run(env, w, Terminate(procs[0])).0;
      RunKept(env, w0, w1, Wait(procs[0]), l);
      TeardownKept(env, w0, Run(env, w1, Wait(procs[0])).0, procs[1..], l);
    }
  }

  /** `execute` looks the address up at most once and before any network command, leaves
      every domain and volume as it was, and when an action raises it terminates none of the
      children it started. */
  lemma ExecuteDiscipline(env: Env, w: World, name: string, actions: seq<Action>, sftp: Option<string>)
    ensures var (w', s) := ExecuteSpec(env, w, name, actions, sftp);
      Kept(w, w', false) && (s.Raised? ==> Spared(w, w'))
  {
    KeptFromStart(w, false);
    RunKept(env, w, w, SshAdd, false);
    var (w1, o) := Run(env, w, SshAdd);
    if o.Done? && Preflight(actions, sftp).None? {
      StepsKept(env, w, w1, name, actions, None, [], sftp, false);
      var r := StepsSpec(env, w1, name, actions, None, [], sftp);
      if r.status.Ok? {
        TeardownKept(env, w, r.w, r.procs, false);
      }
    }
  }
}
