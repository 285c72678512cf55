/** The commands of virt_compose.py: `build_image`, `create_machine`, `start_machine`,
    `destroy_machine` (with `stop_machine`, which is the `stop` of libvirt-compose.py), their
    gates `machine_exists` and `volume_exists`, and the batch commands over a compose file. */
module Compose {
  import opened Text
  import opened Wrappers
  import opened Dicts
  import opened Hypervisor
  import opened Listing
  import opened Args
  import Lifecycle

  /** An image entry of a compose file. The working directory `context` of packer is
      carried but not modelled. */
  datatype Image = Image(packerfile: string, output: string, context: Option<string>)

  /** A compose file, as loaded: machines (each a dictionary of `virt-install` arguments plus
      its `image`) and images by name. */
  datatype ComposeFile = ComposeFile(machines: Dict<Dict<Value>>, images: Dict<Image>)

  /** What `build_image` returns when it returns something: the output path and whether
      packer ran. */
  datatype Built = Built(output: string, built: bool)

  // ---------------------------------------------------------------------------
  // The gates

  /** `machine_exists`: whether the name is a word of `virsh list --all`. */
  function MachineExistsSpec(env: Env, w: World, name: string): (r: (World, bool))
    ensures r.0 == World(w.st, w.trace + [ListAll])
    ensures r.1 == HasToken(name, RenderAll(w.st))
  {
    var (w1, text) := Output(env, w, ListAll);
    (w1, HasToken(name, text))
  }

  /** `volume_exists`: whether the name is a word of `virsh vol-list`. */
  function VolumeListedSpec(env: Env, w: World, name: string): (r: (World, bool))
    ensures r.0 == World(w.st, w.trace + [VolList])
    ensures r.1 == HasToken(name, RenderVolumes(w.st))
  {
    var (w1, text) := Output(env, w, VolList);
    (w1, HasToken(name, text))
  }

  method MachineExists(h: Host, name: string) returns (found: bool)
    modifies h
    ensures (h.w, found) == MachineExistsSpec(h.env, old(h.w), name)
  {
    var text := h.Query(ListAll);
    found := HasToken(name, text);
  }

  method VolumeListed(h: Host, name: string) returns (found: bool)
    modifies h
    ensures (h.w, found) == VolumeListedSpec(h.env, old(h.w), name)
  {
    var text := h.Query(VolList);
    found := HasToken(name, text);
  }

  // ---------------------------------------------------------------------------
  // build_image

  /** The `--only` flag is passed only for a non-empty name. */
  function OnlyFlag(only: Option<string>): Option<string> {
    if only.Some? && only.value != [] then only else None
  }

  /** `build_image`: packer runs when the output is missing or `force` is set; if the output
      is still missing afterwards, the result is None under `only` and an assertion failure
      otherwise. The packer file is identified by its path. */
  function BuildImageSpec(env: Env, w: World, image: Image, force: bool, only: Option<string>)
    : (World, Status, Option<Built>)
  {
    var build := image.output !in w.st.files || force;
    if !build then (w, Ok, Some(Built(image.output, false)))
    else
      var (w1, s1) := Check(env, w, PackerInit(image.packerfile));
      if s1.Raised? then (w1, s1, None)
      else
        var (w2, s2) := Check(env, w1, PackerBuild(image.packerfile, OnlyFlag(only)));
        if s2.Raised? then (w2, s2, None)
        else if image.output !in w2.st.files then
          (w2, if OnlyFlag(only).Some? then Ok else Raised(AssertionFailed), None)
        else (w2, Ok, Some(Built(image.output, true)))
  }

  method BuildImage(h: Host, image: Image, force: bool, only: Option<string>) returns (s: Status, r: Option<Built>)
    modifies h
    ensures (h.w, s, r) == BuildImageSpec(h.env, old(h.w), image, force, only)
  {
    var build := image.output !in h.w.st.files || force;
    if build {
      s := h.CheckCall(PackerInit(image.packerfile));
      if s.Raised? {
        return s, None;
      }
      s := h.CheckCall(PackerBuild(image.packerfile, OnlyFlag(only)));
      if s.Raised? {
        return s, None;
      }
      if image.output !in h.w.st.files {
        if OnlyFlag(only).Some? {
          return Ok, None;
        }
        return Raised(AssertionFailed), None;
      }
    }
    return Ok, Some(Built(image.output, build));
  }

  // ---------------------------------------------------------------------------
  // create_machine

  /** The `setdefault` chain of `create_machine`; `cpus` is what `cpu_count()` returns. */
  function MachineDefaults(name: string, machine: Dict<Value>, cpus: Option<nat>): Dict<Value> {
    var m1 := SetDefault(machine, "name", One(Atom(Str(name))));
    var m2 := SetDefault(m1, "vcpus", One(Atom(if cpus.Some? then Int(cpus.value) else Null)));
    var m3 := SetDefault(m2, "import", One(Atom(Null)));
    var m4 := SetDefault(m3, "noautoconsole", One(Atom(Null)));
    var m5 := SetDefault(m4, "noreboot", One(Atom(Null)));
    SetDefault(m5, "disk", One(Sub([("vol", Str(PoolName + "/" + name))])))
  }

  /** The `virt-install` command line of a machine. */
  function MachineArgv(name: string, machine: Dict<Value>, cpus: Option<nat>): seq<string> {
    Argv(ScalarFlags(Comprehension([], MachineDefaults(name, machine, cpus))))
  }

  /** The first half of `create_machine`: (re)create and upload the volume unless the pool
      lists it; `force` does it regardless. */
  function CreateVolumeSpec(env: Env, w: World, name: string, output: string, force: bool): (World, Status) {
    var (w1, listed) := VolumeListedSpec(env, w, name);
    if !listed || force then Lifecycle.UploadSpec(env, w1, name, output) else (w1, Ok)
  }

  /** The second half: define the domain unless it is listed; `force` does it regardless. */
  function DefineMachineSpec(env: Env, w: World, name: string, machine: Dict<Value>, force: bool,
                             cpus: Option<nat>): (World, Status)
  {
    var (w1, found) := MachineExistsSpec(env, w, name);
    if !found || force then Check(env, w1, Define(MachineArgv(name, machine, cpus))) else (w1, Ok)
  }

  /** `create_machine`. */
  function CreateMachineSpec(env: Env, w: World, name: string, machine: Dict<Value>, output: string,
                             force: bool, cpus: Option<nat>): (World, Status)
  {
    var (w1, s1) := CreateVolumeSpec(env, w, name, output, force);
    if s1.Raised? then (w1, s1) else DefineMachineSpec(env, w1, name, machine, force, cpus)
  }

  method CreateMachine(h: Host, name: string, machine: Dict<Value>, output: string, force: bool,
                       cpus: Option<nat>) returns (s: Status)
    modifies h
    ensures (h.w, s) == CreateMachineSpec(h.env, old(h.w), name, machine, output, force, cpus)
  {
    var listed := VolumeListed(h, name);
    if !listed || force {
      s := Lifecycle.Upload(h, name, output);
      if s.Raised? {
        return;
      }
    }
    assert (h.w, Ok) == CreateVolumeSpec(h.env, old(h.w), name, output, force);
    ghost var w1 := h.w;
    var found := MachineExists(h, name);
    if !found || force {
      var m := machine;
      m := SetDefault(m, "name", One(Atom(Str(name))));
      m := SetDefault(m, "vcpus", One(Atom(if cpus.Some? then Int(cpus.value) else Null)));
      m := SetDefault(m, "import", One(Atom(Null)));
      m := SetDefault(m, "noautoconsole", One(Atom(Null)));
      m := SetDefault(m, "noreboot", One(Atom(Null)));
      m := SetDefault(m, "disk", One(Sub([("vol", Str(PoolName + "/" + name))])));
      var argv := ArgsMapToList(m);
      s := h.CheckCall(Define(argv));
    } else {
      s := Ok;
    }
    assert (h.w, s) == DefineMachineSpec(h.env, w1, name, machine, force, cpus);
  }

  // ---------------------------------------------------------------------------
  // start_machine, destroy_machine

  /** `start_machine`: start the domain unless its name shows in the running listing. */
  function StartMachineSpec(env: Env, w: World, name: string): (World, Status) {
    var (w1, up) := Lifecycle.IsRunningSpec(env, w, name);
    if up then (w1, Ok) else Check(env, w1, Start(name))
  }

  /** The first half of `destroy_machine`: undefine the domain if it is listed. */
  function UndefineMachineSpec(env: Env, w: World, name: string): (World, Status) {
    var (w1, found) := MachineExistsSpec(env, w, name);
    if found then Check(env, w1, Undefine(name)) else (w1, Ok)
  }

  /** The second half of `destroy_machine`: delete the volume if the pool lists it. */
  function DeleteVolumeSpec(env: Env, w: World, name: string): (World, Status) {
    var (w1, listed) := VolumeListedSpec(env, w, name);
    if listed then Check(env, w1, VolDelete(name)) else (w1, Ok)
  }

  /** `destroy_machine`: undefine the domain if it is listed, then delete the volume if it is
      listed. */
  function DestroyMachineSpec(env: Env, w: World, name: string): (World, Status) {
    var (w1, s1) := UndefineMachineSpec(env, w, name);
    if s1.Raised? then (w1, s1) else DeleteVolumeSpec(env, w1, name)
  }

  method StartMachine(h: Host, name: string) returns (s: Status)
    modifies h
    ensures (h.w, s) == StartMachineSpec(h.env, old(h.w), name)
  {
    var up := Lifecycle.IsRunning(h, name);
    if up {
      return Ok;
    }
    s := h.CheckCall(Start(name));
  }

  method DestroyMachine(h: Host, name: string) returns (s: Status)
    modifies h
    ensures (h.w, s) == DestroyMachineSpec(h.env, old(h.w), name)
  {
    var found := MachineExists(h, name);
    s := Ok;
    if found {
      s := h.CheckCall(Undefine(name));
      if s.Raised? {
        return;
      }
    }
    var listed := VolumeListed(h, name);
    if listed {
      s := h.CheckCall(VolDelete(name));
    }
  }

  // ---------------------------------------------------------------------------
  // The batch commands

  /** The machines a batch command works on: those named, or every machine of the file. */
  function Targets(names: seq<string>, cf: ComposeFile): seq<string> {
    if names == [] then Keys(cf.machines) else names
  }

  /** `start_machine` for each name in order; the first raising one ends the loop. */
  function StartAllSpec(env: Env, w: World, names: seq<string>): (World, Status)
    decreases |names|
  {
    if names == [] then (w, Ok)
    else
      var (w1, s1) := StartMachineSpec(env, w, names[0]);
      if s1.Raised? then (w1, s1) else StartAllSpec(env, w1, names[1..])
  }

  /** `stop_machine` for each name in order. */
  function StopAllSpec(env: Env, w: World, names: seq<string>, timeout: int): (World, Status)
    decreases |names|
  {
    if names == [] then (w, Ok)
    else
      var (w1, s1) := Lifecycle.StopSpec(env, w, names[0], timeout);
      if s1.Raised? then (w1, s1) else StopAllSpec(env, w1, names[1..], timeout)
  }

  /** `destroy_machine` for each name in order. */
  function RmAllSpec(env: Env, w: World, names: seq<string>): (World, Status)
    decreases |names|
  {
    if names == [] then (w, Ok)
    else
      var (w1, s1) := DestroyMachineSpec(env, w, names[0]);
      if s1.Raised? then (w1, s1) else RmAllSpec(env, w1, names[1..])
  }

  /** `down`: `stop` and then `rm`, over the same machines. */
  function DownSpec(env: Env, w: World, cf: ComposeFile, names: seq<string>, timeout: int): (World, Status) {
    var (w1, s1) := StopAllSpec(env, w, Targets(names, cf), timeout);
    if s1.Raised? then (w1, s1) else RmAllSpec(env, w1, Targets(names, cf))
  }

  method StartCommand(h: Host, cf: ComposeFile, names: seq<string>) returns (s: Status)
    modifies h
    ensures (h.w, s) == StartAllSpec(h.env, old(h.w), Targets(names, cf))
  {
    var machines := Targets(names, cf);
    ghost var goal := StartAllSpec(h.env, h.w, machines);
    for i := 0 to |machines|
      invariant StartAllSpec(h.env, h.w, machines[i..]) == goal
    {
      assert machines[i..][0] == machines[i] && machines[i..][1..] == machines[i + 1..];
      s := StartMachine(h, machines[i]);
      if s.Raised? {
        return;
      }
    }
    assert machines[|machines|..] == [];
    s := Ok;
  }

  method StopCommand(h: Host, cf: ComposeFile, names: seq<string>, timeout: int) returns (s: Status)
    modifies h
    ensures (h.w, s) == StopAllSpec(h.env, old(h.w), Targets(names, cf), timeout)
  {
    var machines := Targets(names, cf);
    ghost var goal := StopAllSpec(h.env, h.w, machines, timeout);
    for i := 0 to |machines|
      invariant StopAllSpec(h.env, h.w, machines[i..], timeout) == goal
    {
      assert machines[i..][0] == machines[i] && machines[i..][1..] == machines[i + 1..];
      s := Lifecycle.Stop(h, machines[i], timeout);
      if s.Raised? {
        return;
      }
    }
    assert machines[|machines|..] == [];
    s := Ok;
  }

  method RmCommand(h: Host, cf: ComposeFile, names: seq<string>) returns (s: Status)
    modifies h
    ensures (h.w, s) == RmAllSpec(h.env, old(h.w), Targets(names, cf))
  {
    var machines := Targets(names, cf);
    ghost var goal := RmAllSpec(h.env, h.w, machines);
    for i := 0 to |machines|
      invariant RmAllSpec(h.env, h.w, machines[i..]) == goal
    {
      assert machines[i..][0] == machines[i] && machines[i..][1..] == machines[i + 1..];
      s := DestroyMachine(h, machines[i]);
      if s.Raised? {
        return;
      }
    }
    assert machines[|machines|..] == [];
    s := Ok;
  }

  method DownCommand(h: Host, cf: ComposeFile, names: seq<string>, timeout: int) returns (s: Status)
    modifies h
    ensures (h.w, s) == DownSpec(h.env, old(h.w), cf, names, timeout)
  {
    s := StopCommand(h, cf, names, timeout);
    if s.Ok? {
      s := RmCommand(h, cf, names);
    }
  }

  // ---------------------------------------------------------------------------
  // build (the command)

  /** The `build` command: `build_image` for each image named, or every image of the file;
      an unknown name raises. The results are discarded. */
  function BuildAllSpec(env: Env, w: World, cf: ComposeFile, names: seq<string>, force: bool,
                        only: Option<string>): (World, Status)
    decreases |names|
  {
    if names == [] then (w, Ok)
    else
      match Get(cf.images, names[0])
      case None => (w, Raised(KeyError(names[0])))
      case Some(image) =>
        var (w1, s1, _) := BuildImageSpec(env, w, image, force, only);
        if s1.Raised? then (w1, s1) else BuildAllSpec(env, w1, cf, names[1..], force, only)
  }

  method BuildCommand(h: Host, cf: ComposeFile, names: seq<string>, force: bool, only: Option<string>)
    returns (s: Status)
    modifies h
    ensures (h.w, s) == BuildAllSpec(h.env, old(h.w), cf, if names == [] then Keys(cf.images) else names, force, only)
  {
    var images := if names == [] then Keys(cf.images) else names;
    ghost var goal := BuildAllSpec(h.env, h.w, cf, images, force, only);
    for i := 0 to |images|
      invariant BuildAllSpec(h.env, h.w, cf, images[i..], force, only) == goal
    {
      assert images[i..][0] == images[i] && images[i..][1..] == images[i + 1..];
      var image := Get(cf.images, images[i]);
      if image.None? {
        return Raised(KeyError(images[i]));
      }
      var result;
      s, result := BuildImage(h, image.value, force, only);
      if s.Raised? {
        return;
      }
    }
    assert images[|images|..] == [];
    s := Ok;
  }

  // ---------------------------------------------------------------------------
  // create

  /** The image a machine names, or the error reading it raises: a missing key, or an
      `image` that is not a string. */
  datatype ImageName = Named(image: string) | Unnamed(error: Error)

  function ImageOf(machine: Dict<Value>): ImageName {
    match Get(machine, "image")
    case None => Unnamed(KeyError("image"))
    case Some(v) =>
      if v.One? && v.item.Atom? && v.item.a.Str? then Named(v.item.a.s) else Unnamed(AssertionFailed)
  }

  /** The first loop of `create` as written: each machine's image is looked up under the
      machine's own name, and the result is stored under that name too. */
  function BuildLoopSpec(env: Env, w: World, cf: ComposeFile, ms: seq<string>, build: bool,
                         images: Dict<Built>): (World, Status, Dict<Built>)
    decreases |ms|
  {
    if ms == [] then (w, Ok, images)
    else
      var name := ms[0];
      match Get(cf.machines, name)
      case None => (w, Raised(KeyError(name)), images)
      case Some(machine) =>
        match ImageOf(machine)
        case Unnamed(e) => (w, Raised(e), images)
        case Named(_) =>
          match Get(cf.images, name)
          case None => (w, Raised(KeyError(name)), images)
          case Some(image) =>
            var (w1, s1, r) := BuildImageSpec(env, w, image, build, None);
            if s1.Raised? then (w1, s1, images)
            else if r.None? then (w1, Raised(AssertionFailed), images)
            else BuildLoopSpec(env, w1, cf, ms[1..], build, Set(images, name, r.value))
  }

  /** The first loop of `create` as evidently intended: the image is looked up, and its
      result stored, under the image's name. */
  function BuildLoopIntendedSpec(env: Env, w: World, cf: ComposeFile, ms: seq<string>, build: bool,
                                 images: Dict<Built>): (World, Status, Dict<Built>)
    decreases |ms|
  {
    if ms == [] then (w, Ok, images)
    else
      var name := ms[0];
      match Get(cf.machines, name)
      case None => (w, Raised(KeyError(name)), images)
      case Some(machine) =>
        match ImageOf(machine)
        case Unnamed(e) => (w, Raised(e), images)
        case Named(img) =>
          match Get(cf.images, img)
          case None => (w, Raised(KeyError(img)), images)
          case Some(image) =>
            var (w1, s1, r) := BuildImageSpec(env, w, image, build, None);
            if s1.Raised? then (w1, s1, images)
            else if r.None? then (w1, Raised(AssertionFailed), images)
            else BuildLoopIntendedSpec(env, w1, cf, ms[1..], build, Set(images, img, r.value))
  }

  /** The second loop of `create`: each machine without its `image` key is created from the
      image result stored under its image's name, recreated when that image was just built or
      `force_recreate` is set. */
  function CreateLoopSpec(env: Env, w: World, cf: ComposeFile, ms: seq<string>, images: Dict<Built>,
                          force: bool, cpus: Option<nat>): (World, Status)
    decreases |ms|
  {
    if ms == [] then (w, Ok)
    else
      var name := ms[0];
      match Get(cf.machines, name)
      case None => (w, Raised(KeyError(name)))
      case Some(machine) =>
        match ImageOf(machine)
        case Unnamed(e) => (w, Raised(e))
        case Named(img) =>
          match Get(images, img)
          case None => (w, Raised(KeyError(img)))
          case Some(b) =>
            var (w1, s1) := CreateMachineSpec(env, w, name, Remove(machine, "image"), b.output, b.built || force, cpus);
            if s1.Raised? then (w1, s1) else CreateLoopSpec(env, w1, cf, ms[1..], images, force, cpus)
  }

  /** `create` as written. */
  function CreateSpec(env: Env, w: World, cf: ComposeFile, names: seq<string>, build: bool, force: bool,
                      cpus: Option<nat>): (World, Status)
  {
    var ms := Targets(names, cf);
    var (w1, s1, images) := BuildLoopSpec(env, w, cf, ms, build, []);
    if s1.Raised? then (w1, s1) else CreateLoopSpec(env, w1, cf, ms, images, force, cpus)
  }

  /** `create` with the image looked up by its own name. */
  function CreateIntendedSpec(env: Env, w: World, cf: ComposeFile, names: seq<string>, build: bool, force: bool,
                              cpus: Option<nat>): (World, Status)
  {
    var ms := Targets(names, cf);
    var (w1, s1, images) := BuildLoopIntendedSpec(env, w, cf, ms, build, []);
    if s1.Raised? then (w1, s1) else CreateLoopSpec(env, w1, cf, ms, images, force, cpus)
  }

  /** `up` as written, without its interrupt handler: `create`, then `start`, over the same
      names. */
  function UpSpec(env: Env, w: World, cf: ComposeFile, names: seq<string>, build: bool, force: bool,
                  cpus: Option<nat>): (World, Status)
  {
    var (w1, s1) := CreateSpec(env, w, cf, names, build, force, cpus);
    if s1.Raised? then (w1, s1) else StartAllSpec(env, w1, Targets(names, cf))
  }

  /** `up` with the corrected `create`. */
  function UpIntendedSpec(env: Env, w: World, cf: ComposeFile, names: seq<string>, build: bool, force: bool,
                          cpus: Option<nat>): (World, Status)
  {
    var (w1, s1) := CreateIntendedSpec(env, w, cf, names, build, force, cpus);
    if s1.Raised? then (w1, s1) else StartAllSpec(env, w1, Targets(names, cf))
  }

  /** The second loop of `create`. */
  method CreateLoop(h: Host, cf: ComposeFile, machines: seq<string>, images: Dict<Built>, force: bool,
                    cpus: Option<nat>) returns (s: Status)
    modifies h
    ensures (h.w, s) == CreateLoopSpec(h.env, old(h.w), cf, machines, images, force, cpus)
  {
    ghost var goal := CreateLoopSpec(h.env, h.w, cf, machines, images, force, cpus);
    for i := 0 to |machines|
      invariant CreateLoopSpec(h.env, h.w, cf, machines[i..], images, force, cpus) == goal
    {
      var name := machines[i];
      assert machines[i..][0] == name && machines[i..][1..] == machines[i + 1..];
      var machine := Get(cf.machines, name);
      if machine.None? {
        return Raised(KeyError(name));
      }
      var img := ImageOf(machine.value);
      if img.Unnamed? {
        return Raised(img.error);
      }
      var b := Get(images, img.image);
      if b.None? {
        return Raised(KeyError(img.image));
      }
      s := CreateMachine(h, name, Remove(machine.value, "image"), b.value.output, b.value.built || force, cpus);
      if s.Raised? {
        return;
      }
    }
    assert machines[|machines|..] == [];
    s := Ok;
  }

  /** `create`, with the first loop looking the image up under its own name. */
  method Create(h: Host, cf: ComposeFile, names: seq<string>, build: bool, force: bool, cpus: Option<nat>)
    returns (s: Status)
    modifies h
    ensures (h.w, s) == CreateIntendedSpec(h.env, old(h.w), cf, names, build, force, cpus)
  {
    var machines := Targets(names, cf);
    var images: Dict<Built> := [];
    ghost var goal := BuildLoopIntendedSpec(h.env, h.w, cf, machines, build, images);
    for i := 0 to |machines|
      invariant BuildLoopIntendedSpec(h.env, h.w, cf, machines[i..], build, images) == goal
    {
      var name := machines[i];
      assert machines[i..][0] == name && machines[i..][1..] == machines[i + 1..];
      var machine := Get(cf.machines, name);
      if machine.None? {
        return Raised(KeyError(name));
      }
      var img := ImageOf(machine.value);
      if img.Unnamed? {
        return Raised(img.error);
      }
      var image := Get(cf.images, img.image);
      if image.None? {
        return Raised(KeyError(img.image));
      }
      var r;
      s, r := BuildImage(h, image.value, build, None);
      if s.Raised? {
        return;
      }
      if r.None? {
        return Raised(AssertionFailed);
      }
      images := Set(images, img.image, r.value);
    }
    assert machines[|machines|..] == [];
    s := CreateLoop(h, cf, machines, images, force, cpus);
  }

  /** `up`, on top of the corrected `create`. */
  method Up(h: Host, cf: ComposeFile, names: seq<string>, build: bool, force: bool, cpus: Option<nat>)
    returns (s: Status)
    modifies h
    ensures (h.w, s) == UpIntendedSpec(h.env, old(h.w), cf, names, build, force, cpus)
  {
    s := Create(h, cf, names, build, force, cpus);
    if s.Ok? {
      s := StartCommand(h, cf, names);
    }
  }
}
