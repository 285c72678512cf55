# virt-compose, modelled in Dafny

virt-compose brings up libvirt virtual machines from a compose file. It has two front ends:

- `libvirt-compose.py` builds a domain from a build file. It fetches and uploads the source
  image, runs `virt-install`, types keystrokes into the console, runs ssh/scp/sshfs actions
  against the guest, and stops it. It also has `up`, `down`, `start`, `stop`, `rm` and `run`
  commands over services.
- `virt_compose.py` builds disk images with packer. It creates volumes and domains from
  them, and starts, stops and removes machines.

This project models the decision logic around the external commands: which `virsh`,
`virt-install`, `qemu-img`, `packer`, `ssh` and `scp` commands are issued, in what order, and
under which tests. It also models the pure string and argument functions.

## How the model is built

- **The host is an abstract state.** `Hypervisor.State` holds:
  - the defined domains, in listing order;
  - the running domains;
  - a countdown per guest that is shutting down;
  - the pool's volumes;
  - the image files on disk;
  - the open pipe ends, the child processes and the live children.
- **Every command is recorded.** `Hypervisor.Run` issues one `Call` and appends it to the
  trace of a `World`.
- **Failures come from the environment.** `Env` lists the trace positions at which a
  command fails, the number of running-state checks after which each guest honours an ACPI
  shutdown, the lease table and the `qemu-img` answers.
- **Listings are printed from the state.** `virsh list --all`, `virsh list --state-running`
  and `virsh vol-list` are rendered as text, so the source's token tests and substring tests
  run on real text.
- **Time is counted in listings.** Each running-state listing stands for one second of the
  poll loops: it counts every shutting-down guest's countdown down.
- **Each operation has two forms.** A pure function gives its result, for example
  `Lifecycle.StopSpec` or `Compose.CreateMachineSpec`. A method on the mutable
  `Hypervisor.Host` issues the commands one by one, with the loops of the source. Each
  method is proved to end in the state and status its function gives. The properties are
  lemmas over the functions, collected in the `*Facts` modules.
- **`virt-install` reads its own command line.** A `Define` call defines the domain named by
  `--name` and also runs it, except when the line carries both `--import` and `--noreboot`.
- **Python exceptions are a `Status`.** `Raised(e)` carries the error; the first raising
  step ends a sequence, as it does in the source.

Modules: `Wrappers`, `Text` (Python `split`, `splitlines`, `in`, `join`, `str` of an integer), `Dicts` (insertion-ordered
dictionaries), `Keycodes`, `Args`, `Storage`, `Hypervisor`, `Listing`, `Lease`, `Executor` /
`ExecutorFacts`, `Lifecycle` / `LifecycleFacts` (libvirt-compose.py), `Compose` /
`ComposeFacts` (virt_compose.py).

## Model

| member | source | states |
|---|---|---|
| Keycodes.KeyCodesSize | libvirt-compose.py:21-37 | the key table has exactly 72 entries |
| Keycodes.KeyCodesMembers | libvirt-compose.py:21-37 | a character is in the table iff it is a lower-case or upper-case ASCII letter, a digit or one of the ten special characters |
| Keycodes.RangesDisjoint | libvirt-compose.py:21-37 | the four parts of the table (26 lower-case, 26 upper-case, 10 digits, 10 specials) share no key |
| Keycodes.LowerCaseSymbols | libvirt-compose.py:22 | a lower-case letter splits into the one symbol `KEY_` + its upper-case form |
| Keycodes.UpperCaseSymbols | libvirt-compose.py:23 | an upper-case letter splits into `KEY_LEFTSHIFT` then `KEY_` + the letter |
| Keycodes.DigitSymbols | libvirt-compose.py:24 | a digit splits into the one symbol `KEY_` + the digit |
| Keycodes.SymbolShape | libvirt-compose.py:21-37 | every entry splits into one or two symbols, and a two-symbol entry starts with `KEY_LEFTSHIFT` |
| Keycodes.SpecialForm | libvirt-compose.py:25-36 | each special entry is one key name, or the shift key and one key name |
| Keycodes.EnterSymbol | libvirt-compose.py:26 | a newline is the single symbol `KEY_ENTER` |
| Text.TokensSplitAtSpace | libvirt-compose.py:206 | `str.split()`: any character Python counts as whitespace, ASCII or Unicode, separates the tokens on its two sides |
| Text.TokensAreWords | libvirt-compose.py:206 | every token of `str.split()` is non-empty and holds no character Python counts as whitespace |
| Text.SplitJoin | libvirt-compose.py:165 | `str.split(c)` then joining with `c` gives the string back, and no part holds `c` |
| Text.IntToString | libvirt-compose.py:227 | `str()` of an integer is a non-empty word that starts with `-` iff the integer is negative |
| Text.IntToStringRoundTrip | libvirt-compose.py:227 | `str()` of an integer is its decimal numeral: it reads back as that integer, and its digits start with `0` only for 0 |
| Text.LinesAtNewline | virt_compose.py:151 | `splitlines()` splits at `\n`, and a trailing `\n` adds no empty line |
| Text.CrLf | virt_compose.py:151 | `splitlines()` counts `\r\n` as one line boundary |
| Text.OneBreak | virt_compose.py:151 | `splitlines()` splits at each single boundary character: `\n`, `\r`, `\v`, `\f`, `\x1c`-`\x1e`, `\x85`, `\u2028`, `\u2029` |
| Storage.GetStorageName | libvirt-compose.py:163-167 | a storage name never holds `/` |
| Storage.UrlName | libvirt-compose.py:164-165 | for an http(s) URL the name is the text after the last `/` |
| Storage.PathNameOf | libvirt-compose.py:166-167 | for a local path the name is its last component |
| Storage.TrailingSlashPath | libvirt-compose.py:166-167 | a local path ending in `/` still names its last component |
| Storage.PlainName | libvirt-compose.py:166-167 | a bare file name is its own storage name |
| Storage.ExtensionDropped | libvirt-compose.py:237 | `splitext` drops the last extension of a name that has a character other than `.` before it |
| Storage.HiddenNameKept | libvirt-compose.py:237 | `splitext` keeps a name whose only dot is its leading one |
| Storage.NoExtensionKept | libvirt-compose.py:237 | `splitext` keeps a name without `.` |
| Args.InnerFlagsGet | libvirt-compose.py:196-201 | `inner_args_dict_to_list` keeps a key iff its value is not False, None or 0, writes it bare iff the value is True, and `k=str(v)` otherwise |
| Args.InnerArgsRoundTrip | libvirt-compose.py:196-201 | with well-formed keys and values, the comma-joined text reads back into exactly the kept entries |
| Args.ArgsDictToList | libvirt-compose.py:216-228 | the loop's output is the command line of the kept flags: `--key`, then the value text unless the value is True; a dict becomes its inner text |
| Args.LibvirtFlagsGet | libvirt-compose.py:216-228 | the flag for each key of `args_dict_to_list`, one key at a time |
| Args.ParseArgvRoundTrip | libvirt-compose.py:216-228 | a command line whose arguments do not look like options reads back into its flags |
| Args.SubargsRoundTrip | virt_compose.py:40-43 | `subargs_to_str` drops nothing: every key appears, `None` bare, and the text reads back into the entries |
| Args.KvRoundTrip | virt_compose.py:40-43 | the `k=v` text of safe entries reads back into them |
| Args.ArgsMapExpand | virt_compose.py:46-52 | the loop writes `--key` per entry, followed by `str(value)` unless the value is None |
| Args.ArgsMapToList | virt_compose.py:55-62 | the output is the expansion of the comprehension, which for distinct keys keeps only each list's last item and drops a key with an empty list |
| Args.ComprehensionIsLastItems | virt_compose.py:57-61 | the nested dict comprehension equals the last-item reading of the arguments |
| Args.LastItemsGet | virt_compose.py:57-61 | key by key: absent, or dropped for an empty list, or the last item, with a dict item turned into its `subargs_to_str` text |
| Args.ArgsMapToListRoundTrip | virt_compose.py:55-62 | the command line of `args_map_to_list` reads back into the last-item flags |
| Dicts.GetSetDefault | virt_compose.py:112-117 | `setdefault` keeps a supplied value and otherwise installs the default |
| Dicts.GetRemove | virt_compose.py:211 | after `pop`, the key is gone and every other key keeps its value |
| Dicts.GetSet | virt_compose.py:208 | assignment sets the key and leaves every other key as it was |
| Dicts.KeysSet | virt_compose.py:208 | assignment keeps the key order and appends a new key at the end |
| Hypervisor.Check | libvirt-compose.py:286 | `check_call` succeeds iff the command does, and otherwise raises the failure of that command |
| Hypervisor.Output | libvirt-compose.py:209 | `check_output` of a listing returns the text printed from the state; only the running-state listing lets time pass |
| Listing.MachineExistsExact | virt_compose.py:131-133 | with one-word names, the token test of `machine_exists` holds iff the domain is defined |
| Listing.VolumeExistsExact | virt_compose.py:136-138 | for a clean name (one word, not a header, state or id word, not a number, without `/`) over a pool of one-word names, the token test of `volume_exists` holds iff the pool holds the volume |
| Listing.VolumeHeaderListed | virt_compose.py:136-138 | `Name` and `Path`, the header words of `virsh vol-list`, pass the token test of `volume_exists` on every pool, an empty one included |
| Listing.DomainHeaderListed | virt_compose.py:131-133 | `Id`, `Name` and `State`, the header words of `virsh list --all`, pass the token test of `machine_exists` with or without any domain defined |
| Listing.RunningReported | libvirt-compose.py:208-210 | the substring test of `is_running` never misses a running domain |
| Listing.DefinedReported | libvirt-compose.py:212-214 | the substring test of `domain_exists` never misses a defined domain |
| Listing.PartOfNameReportsRunning | virt_compose.py:126-128 | any part of a running domain's name also reports running |
| Listing.RunningQuirkExample | virt_compose.py:126-128 | with only `web2` running, `web` reports running although no such domain exists |
| Listing.HeaderReportsRunning | libvirt-compose.py:208-210 | even an empty listing reports running for any part of its `State` header |
| Lease.ParseLease | virt_compose.py:151-153 | the parsed address never holds `/` |
| Lease.LeaseRoundTrip | virt_compose.py:147-154 | for a table of well-formed leases the parser returns the address of the last lease |
| Lease.LastLeaseRead | libvirt-compose.py:180-187 | below any header of words, the parser returns the address of the last well-formed lease |
| Lease.LeaseOfTable | virt_compose.py:151-153 | for any table of words, the parser reads the second-to-last line: seven fields, and exactly one `/` in the fifth |
| Lease.NoLeaseFails | libvirt-compose.py:184-186 | with no lease the second-to-last line is the rule, and parsing fails |
| Lease.NoPrefixFails | libvirt-compose.py:186 | a fifth field without `/` is rejected |
| Lease.FieldCountFails | libvirt-compose.py:185 | a last line with other than seven fields is rejected |
| Lease.OneLineFails | virt_compose.py:151 | output with no line break has no second-to-last line, so `splitlines()[-2]` fails |
| Executor.SendText | libvirt-compose.py:204-206 | the loop issues exactly the calls of `SendTextSpec` |
| ExecutorFacts.SendTextTypes | libvirt-compose.py:204-206 | with no failures, a text of known characters issues one `send-key` per character, in order, with that character's symbols, and changes nothing else |
| ExecutorFacts.SendTextStops | libvirt-compose.py:206 | typing stops at the first unknown character with `KeyError`, after typing the characters before it |
| ExecutorFacts.TypeActionTypes | libvirt-compose.py:356-358 | a `Type` action issues one `send-key` per character and then `KEY_ENTER`: \|t\|+1 calls |
| Executor.Scan | libvirt-compose.py:339-349 | the scan loop returns the verdict of `Preflight` |
| ExecutorFacts.MissingExact | libvirt-compose.py:340-344 | a character is reported missing iff some `Type` text holds it and the table lacks it |
| ExecutorFacts.PreflightExact | libvirt-compose.py:339-349 | the scan passes iff an SFTP server is configured or no action mounts, and every character can be typed |
| ExecutorFacts.PreflightIssuesNothing | libvirt-compose.py:338-349 | a rejected action list issues nothing after `ssh-add -L`, changes nothing, and raises the scan's error; a missing server wins over missing characters |
| ExecutorFacts.CloseAllCloses | libvirt-compose.py:402-405 | closing distinct open ends issues one `close` each, in order, and leaves none open |
| ExecutorFacts.SettleCloses | libvirt-compose.py:402-406 | with no failures the four ends are closed and the ssh child is polled |
| ExecutorFacts.TunnelWires | libvirt-compose.py:386-406 | the SFTP server reads pipe 1 and writes pipe 2, ssh reads pipe 2 and writes pipe 1, both are registered in order, and all four ends are closed |
| ExecutorFacts.SshfsOpensPipes | libvirt-compose.py:386-401 | an `Sshfs` action opens two pipes numbered after its position and hands them to the tunnel |
| ExecutorFacts.SshfsWithoutServer | libvirt-compose.py:388 | without a server, the mount raises `AssertionError` after opening both pipes |
| ExecutorFacts.TeardownTerminates | libvirt-compose.py:408-410 | teardown terminates and then waits on each child, in registration order |
| ExecutorFacts.ExecuteDiscipline | libvirt-compose.py:337-410 | `execute` never touches domains, volumes or images; it looks the address up at most once, and issues no scp, ssh or child before the lookup; when an action raises, no child is terminated |
| ExecutorFacts.StepsKept | libvirt-compose.py:352-407 | the action loop keeps the lookup discipline and terminates no child |
| Executor.Execute | libvirt-compose.py:337-410 | the two loops and the teardown issue exactly the calls of `ExecuteSpec` |
| Lifecycle.IsRunningSpec | libvirt-compose.py:208-210 | one running-state listing; the answer is whether the name occurs in its text |
| Lifecycle.DomainExistsSpec | libvirt-compose.py:212-214 | one full listing; the answer is whether the name occurs in its text |
| Lifecycle.VolumeExistsSpec | libvirt-compose.py:170-171 | `vol-path` succeeds iff the pool holds the volume, and nothing changes |
| Lifecycle.Stop | libvirt-compose.py:289-298 | the poll loop issues exactly the calls of `StopSpec` |
| LifecycleFacts.StopCalls | libvirt-compose.py:289-298 | not running: one listing and nothing else; running: one shutdown, then either the first k ≤ n checks until one finds it gone, or n checks and a destroy |
| LifecycleFacts.IgnoredShutdownDestroys | libvirt-compose.py:293-298 | a guest that ignores ACPI is destroyed after exactly `timeout` checks, so a timeout of 0 always destroys |
| LifecycleFacts.StopHalts | virt_compose.py:160-169 | `stop` keeps definitions and volumes, raises only a failed shutdown or destroy, and on success the domain is not running |
| LifecycleFacts.RmRemoves | libvirt-compose.py:300-303 | `rm` removes the definition and then the volume, nothing else, and raises only a failure of one of them |
| Lifecycle.EnsureSource | libvirt-compose.py:133-160 | the method issues exactly the calls of `EnsureSourceSpec`: nothing when `vol-path` finds the volume, else download, checksum, size, format, create, upload |
| ComposeFacts.UploadKeeps | libvirt-compose.py:143-160 | the upload touches only the pool and adds at most the volume of that name |
| ComposeFacts.UploadOutcome | libvirt-compose.py:143-160 | after a successful upload the volume exists, and the upload raises only a command failure |
| ComposeFacts.EnsureSourceProvides | libvirt-compose.py:133-160 | a volume already in the pool costs one `vol-path` and changes nothing; otherwise success leaves the volume in the pool; the only error is a failed command |
| LifecycleFacts.CleanupClears | libvirt-compose.py:253-255 | the unchecked clean-up never adds anything; with no failures the domain is gone: not running, not defined, no volume |
| LifecycleFacts.FirstFlagName | libvirt-compose.py:239-248 | the `virt-install` line of `build` names the domain passed to `build` |
| LifecycleFacts.InstallDefines | libvirt-compose.py:256-274 | for either installer, a successful `virt-install` leaves that domain defined |
| LifecycleFacts.CDRomBoots | libvirt-compose.py:238-263 | the CD-ROM command line has `--noreboot` but no `--import`, so `virt-install` boots the installer |
| LifecycleFacts.DiskBoots | libvirt-compose.py:238-272 | the disk command line has `--import` and, because `noreboot` is turned off, no `--noreboot`, so the domain boots |
| LifecycleFacts.InstallRuns | libvirt-compose.py:256-274 | for either installer, a successful `virt-install` leaves that domain running |
| LifecycleFacts.PrepareDefines | libvirt-compose.py:249-274 | once `build` has passed `virt-install`, the domain is defined |
| LifecycleFacts.PrepareRuns | libvirt-compose.py:249-274 | once `build` has passed `virt-install`, the domain runs, ready for the actions |
| LifecycleFacts.ExecuteKeeps | libvirt-compose.py:337-410 | `execute` only adds to the trace and leaves domains and pool alone |
| LifecycleFacts.SettleBuildStops | libvirt-compose.py:275-282 | after a successful `execute` and shutdown, `build` leaves the domain defined, its volumes alone and the domain not running |
| LifecycleFacts.SettleBuildCleansUp | libvirt-compose.py:275-282 | a failure of `execute` or of the shutdown ends with destroy, undefine, vol-delete and re-raises that error: the one from `execute`, or a failed shutdown or destroy |
| LifecycleFacts.SettleBuildClears | libvirt-compose.py:279-282 | unless a clean-up command fails, the rolled-back domain is neither running, defined nor holding a volume |
| LifecycleFacts.ProvisionRollsBack | libvirt-compose.py:275-282 | the `try` block: success leaves the domain stopped with definitions and pool as they were; a failure of `execute` or `stop` ends with the three clean-up commands and re-raises that error |
| LifecycleFacts.BuildLeavesStopped | libvirt-compose.py:234-282 | a successful `build` leaves the domain defined and shut off |
| Lifecycle.Build | libvirt-compose.py:234-282 | the method issues exactly the calls of `BuildSpec` |
| Lifecycle.BuildCommand | libvirt-compose.py:234-237 | the `build` command runs `BuildSpec` under the given name, or else under the file name without its directory and extension |
| LifecycleFacts.BuildNameOfFile | libvirt-compose.py:236-237 | without a name, `dir/stem.ext` builds the domain `stem` |
| LifecycleFacts.BuildNameOfHiddenFile | libvirt-compose.py:236-237 | without a name, `dir/.name` builds the domain `.name`: a leading dot is not an extension |
| LifecycleFacts.OperateStops | libvirt-compose.py:328-335 | `run` stops the domain in its `finally` even when the actions raise, and then raises; definitions and pool are unchanged |
| LifecycleFacts.OperateRaises | libvirt-compose.py:328-335 | after a successful start: if the `finally` stop succeeds, `run` ends with the actions' status; if the stop raises, its error (a failed shutdown or destroy) replaces the actions' error |
| LifecycleFacts.ServiceUpSkipsBuild | libvirt-compose.py:415-420 | `up` builds nothing for a listed service and only starts it |
| LifecycleFacts.ServiceUpStarts | libvirt-compose.py:415-420 | a service `up` completes ends with a start, and the domain runs |
| LifecycleFacts.UpOnActiveRaises | libvirt-compose.py:415-420 | because `up` always starts, it raises for a domain that is already running |
| Lifecycle.Operations | libvirt-compose.py:418-419 | the loop over a service's operation files issues exactly the calls of `OperationsSpec`: each file is run in turn and the first failure ends the loop |
| Lifecycle.Up | libvirt-compose.py:412-420 | the loop over services issues exactly the calls of `UpSpec` |
| LifecycleFacts.ServiceDownSkips | libvirt-compose.py:425-429 | `down` only lists a service whose name is not listed |
| LifecycleFacts.ServiceDownHalts | libvirt-compose.py:425-429 | `down` of a service only removes; on success it is not running, and with `volumes` it is undefined and its volume deleted |
| LifecycleFacts.DownHalts | libvirt-compose.py:422-429 | after `down` no service runs, with `volumes` none is defined, and without `volumes` no definition or volume changes |
| Compose.MachineExistsSpec | virt_compose.py:131-133 | one full listing; the answer is the token test on its text |
| Compose.VolumeListedSpec | virt_compose.py:136-138 | one `vol-list`; the answer is the token test on its text |
| ComposeFacts.BuildImageDecision | virt_compose.py:65-87 | packer runs iff the output is missing or `force` is set; a result is `(output, built)` with the output present; None only with a non-empty `only` and the output missing; otherwise the assertion fails |
| ComposeFacts.BuildImageWithoutOnly | virt_compose.py:83-87 | without `only`, a successful `build_image` always returns a result |
| ComposeFacts.BuildImageAdds | virt_compose.py:65-87 | `build_image` only adds files and leaves domains and pool alone |
| Compose.BuildImage | virt_compose.py:65-87 | the method issues exactly the calls of `BuildImageSpec` |
| ComposeFacts.MachineDefaultsGet | virt_compose.py:112-117 | a supplied key keeps its value; otherwise `name`, `vcpus` = cpu count, bare `import`, `noautoconsole`, `noreboot`, and `disk` = `vol=default/<name>` |
| ComposeFacts.MachineArgvName | virt_compose.py:112-118 | a machine without its own `name` is defined under the machine's name |
| ComposeFacts.MachineArgvDefinesOnly | virt_compose.py:112-118 | with the default bare `import` and `noreboot`, the `virt-install` line does not boot the domain |
| ComposeFacts.DefineMachineLeavesStopped | virt_compose.py:111-118 | with those defaults, the `virt-install` step of `create_machine` leaves the running domains as they were |
| ComposeFacts.CreateVolumeGate | virt_compose.py:91-109 | the volume is created and uploaded iff the pool lacks it or `force` is set |
| ComposeFacts.DefineMachineGate | virt_compose.py:111-118 | `virt-install` runs iff no such domain is defined or `force` is set |
| ComposeFacts.CreateMachineEstablishes | virt_compose.py:90-118 | after a successful `create_machine` the volume is in the pool and the domain is defined |
| ComposeFacts.CreateMachineSkips | virt_compose.py:90-118 | without `force`, an existing volume and domain cost two listings and nothing else |
| ComposeFacts.CreateMachineIdempotent | virt_compose.py:90-118 | a second `create_machine` without `force` performs no mutation |
| ComposeFacts.ForceRecreateRaises | virt_compose.py:91-109 | `force` with an existing volume always raises, because the old volume is not deleted first |
| Compose.CreateMachine | virt_compose.py:90-118 | the method, which applies the `setdefault` chain in place, issues exactly the calls of `CreateMachineSpec` |
| ComposeFacts.StartMachineSkipsActive | virt_compose.py:121-123 | a running domain is not started again |
| ComposeFacts.StartMachineShows | virt_compose.py:121-123 | after a successful `start_machine` the running listing shows the name; only a failed start raises |
| ComposeFacts.StartMachineIdempotent | virt_compose.py:121-123 | a second `start_machine` only lists |
| ComposeFacts.StartMachineQuirk | virt_compose.py:121-128 | with `web2` running, `start_machine("web")` starts nothing and `web` stays stopped |
| ComposeFacts.UndefineMachineRemoves | virt_compose.py:174-175 | the undefine step changes only the definitions, undefines exactly when the domain is listed, and after a success the name is not defined |
| ComposeFacts.DeleteVolumeRemoves | virt_compose.py:176-177 | the volume step changes only the pool, deletes exactly when the pool holds the volume, and after a success the volume is gone |
| ComposeFacts.DestroyMachineRemoves | virt_compose.py:172-177 | `destroy_machine` only removes; on success neither the definition nor the volume is left |
| ComposeFacts.DestroyMachineCalls | virt_compose.py:172-177 | it undefines iff the domain is defined and deletes the volume iff the pool holds it |
| ComposeFacts.DestroyMachineIdempotent | virt_compose.py:172-177 | a second `destroy_machine` only lists |
| ComposeFacts.StartAllKeeps | virt_compose.py:228-234 | `start` keeps definitions and pool, only adds running domains, and raises only a failed start |
| ComposeFacts.StartAllErrors | virt_compose.py:233-234 | `start` over several machines raises only a failed `virsh start` |
| ComposeFacts.StopAllHalts | virt_compose.py:237-243 | after a successful `stop` none of the machines runs |
| ComposeFacts.RmAllKeeps | virt_compose.py:253-259 | `rm` only removes definitions and volumes and leaves the running set alone |
| ComposeFacts.RmAllRemoves | virt_compose.py:253-259 | after a successful `rm` no machine has a definition or volume left |
| ComposeFacts.DownClears | virt_compose.py:246-250 | after a successful `down` no machine is defined or has a volume, and nothing was added |
| Compose.StartCommand | virt_compose.py:228-234 | the loop issues exactly the calls of `StartAllSpec` over the named machines, or all of them |
| Compose.StopCommand | virt_compose.py:237-243 | the loop issues exactly the calls of `StopAllSpec` |
| Compose.RmCommand | virt_compose.py:253-259 | the loop issues exactly the calls of `RmAllSpec` |
| Compose.DownCommand | virt_compose.py:246-250 | `stop` then `rm` over the same machines |
| ComposeFacts.BuildAllProduces | virt_compose.py:186-193 | after a successful `build` without `only`, every named image is known and its output exists |
| Compose.BuildCommand | virt_compose.py:186-193 | the loop issues exactly the calls of `BuildAllSpec` over the named images, or all of them |
| ComposeFacts.BuildLoopKeys | virt_compose.py:202-208 | as written, the first loop of `create` needs an image under each machine's own name, and stores results only under machine names |
| ComposeFacts.CreateLoopNeeds | virt_compose.py:209-215 | the second loop succeeds only if every machine's image name is a key of the results |
| ComposeFacts.CreateAsWrittenNeeds | virt_compose.py:196-215 | `create` as written succeeds only if every machine's name is also an image name and every image name is also a machine being created |
| ComposeFacts.CreateLooksUpMachineName | virt_compose.py:206 | machine `web` with image `debian` raises `KeyError('web')` before anything is built |
| ComposeFacts.CreateMachineErrors | virt_compose.py:90-118 | `create_machine` raises only a command failure |
| ComposeFacts.CreateLoopErrors | virt_compose.py:209-215 | with every image result present, the second loop raises only a command failure |
| ComposeFacts.BuildLoopIntendedCovers | virt_compose.py:202-208 | the corrected first loop holds a result under every machine's image name after success |
| ComposeFacts.BuildLoopIntendedErrors | virt_compose.py:202-208 | the corrected first loop raises only a command failure or the missing-output assertion |
| ComposeFacts.CreateIntendedNoKeyError | virt_compose.py:196-215 | corrected `create`: when every machine names an image of the file, only a command failure or a missing output stops it |
| ComposeFacts.UploadGrows | virt_compose.py:91-111 | the upload loses no volume and no definition |
| ComposeFacts.CreateMachineGrows | virt_compose.py:90-118 | `create_machine` loses no volume and no definition |
| ComposeFacts.CreateLoopGrows | virt_compose.py:209-215 | the second loop of `create` loses no volume and no definition |
| ComposeFacts.CreateLoopEstablishes | virt_compose.py:209-215 | after a successful second loop every machine it went through has its volume in the pool and its domain defined |
| ComposeFacts.BuildLoopIntendedFrame | virt_compose.py:202-208 | the corrected first loop leaves the pool and the definitions as they were |
| ComposeFacts.CreateIntendedEstablishes | virt_compose.py:196-215 | corrected `create`: after success every machine asked for has its volume in the pool and its domain defined, when each names an image of the file and is defined under its own clean name |
| ComposeFacts.UpLooksUpMachineName | virt_compose.py:218-222 | `up` as written, on machine `web` with image `debian`, raises `KeyError('web')` and changes nothing |
| ComposeFacts.UpNoKeyError | virt_compose.py:218-225 | `up` with the corrected `create` raises no lookup error |
| Compose.Create | virt_compose.py:196-215 | the two loops issue exactly the calls of the corrected `create` |
| Compose.Up | virt_compose.py:218-225 | the corrected `create` and then `start` over the same machines (`UpIntendedSpec`) |

## Left out

- External programs are not run: `virsh`, `virt-install`, `qemu-img`, `packer`, `curl`, `sha256sum`, `ssh-add`, `scp`, `ssh` and the SFTP server become `Call`s. Their success is decided by `Env.faults` and their effect by `Hypervisor.Effect`.
- Listings never fail: `virsh list`, `virsh vol-list`, `vol-path` and `qemu-img info` are queries the environment always answers.
- `qemu-img info` JSON is not parsed: the virtual size and format are opaque strings from `Env`.
- `get_ip_address` is one `IpLookup` call. The `dumpxml` MAC lookup through BeautifulSoup is not modelled, and the lease table comes from `Env`. Its parsing is modelled.
- `sleep` is not modelled. The poll loops count running-state listings instead of seconds, and `SleepAction` issues nothing.
- `string.Template` substitution of `$SSH_KEY` is not modelled: a `TypeAction` carries the already expanded text.
- `Popen.poll()` is an opaque `Poll` call that fails when the child has exited.
- OS pipes are numbered by the trace position that opens them, and children by the position that spawns them.
- Loading YAML and validating with pydantic are not modelled: the compose file, build files and action lists are given as values.
- For `build_image`, reading the packer file, the temporary `.pkr.json` copy and the `chdir` into the context are not modelled. Packer is given the packer file's path, and `Env.products` says which files a build creates.
- `ps`, `ip` and `exec`, and the Typer/cyclopts wiring, are left out. So are the module-global `compose_file` and the `networks` field, which the modelled commands do not use.
- The temporary directory of `download_source` is not modelled: a download yields the fixed path `Downloaded`.
- `cpu_count()` is a parameter `cpus`, which may be None.
- The `KeyboardInterrupt` handler of `up` in virt_compose.py (lines 221-225) is not modelled.
- No single lemma states the whole `Sshfs` action, with both children running and all ends closed, because that proof was too expensive. `ExecutorFacts.SshfsOpensPipes` and `ExecutorFacts.TunnelWires` together state it.
- Compose.Up: runs on the corrected `create` (`Compose.UpIntendedSpec`); `Compose.UpSpec` keeps `up` as written, on `create` as written.
- Hypervisor.DomainEffect: `virsh undefine` of a running domain fails in the model. libvirt undefines it and leaves it running as a transient domain, which the model has no notion of. So `rm` (libvirt-compose.py:300-303) and `destroy_machine` (virt_compose.py:172-177) of a running domain raise the undefine failure instead of going on to `vol-delete`.
- Compose.Create: implements `create` with the image looked up under the image's name, not under the machine's name; `Compose.CreateSpec` keeps the code as written (see Findings).
- ExecutorFacts.ExecuteDiscipline: does not state that the lookup comes only from an Scp, Ssh or Sshfs action. It states that there is at most one lookup and that no network command comes before it.
- Listing.MachineExistsExact: exact only for one-word names that are not header or state words. A name with whitespace cannot be a token of the listing at all. The header words `Id`, `Name` and `State` always pass (`Listing.DomainHeaderListed`).
- Listing.VolumeExistsExact: exact only for clean names. `Name` and `Path` are the header words of `virsh vol-list`, so `volume_exists` answers yes for them on every pool (`Listing.VolumeHeaderListed`), and without `force` `create_machine` never creates a volume with either name.

## Findings

| source | as written | input that shows it | evidently intended | confidence | as-written member | corrected member |
|---|---|---|---|---|---|---|
| virt_compose.py:206 | `build_image(compose_file.images[name], ...)` looks the image up under the machine's name, and `images[name] = ...` stores the result under the machine's name, while line 213 reads it back under the image's name | a file with machine `web` whose `image` is `debian` and one image `debian`: `create` raises `KeyError('web')` | look the image up, and store its result, under the machine's `image` value | high (not executed) | ComposeFacts.CreateLooksUpMachineName | ComposeFacts.CreateIntendedNoKeyError |
