/** The create hook: what it injects into a fractional container and what it records for
    metrics (fractioning-manager/fractiond/internal: plugin.go, adapter.go, injection/). */
module Hook {
  import opened Text
  import opened Annotations
  import opened ContainerStores
  import Events

  const ENV_REQUEST := "NVIDIA_GPU_MEMORY_REQUEST"
  const ENV_LIMIT := "NVIDIA_GPU_MEMORY_LIMIT"
  const ENV_PIPE := "CUDA_MPS_PIPE_DIRECTORY"
  const ENV_DEVICES := "NVIDIA_VISIBLE_DEVICES"
  const CDI_KIND := "k8s.device-plugin.nvidia.com/gpu"
  const CONTAINER_PIPE_DIRECTORY := "/tmp/nvidia-mps"

  datatype Mount = Mount(source: string, destination: string, kind: string, options: seq<string>)

  datatype PodSandbox = PodSandbox(id: string, name: string, namespace: string, uid: string,
      annotations: map<string, string>)

  datatype Lifecycle = Unknown | Created | Paused | Running | Stopped

  /** gpuDevices are the devices recognised from the container's device nodes. */
  datatype Container = Container(
    id: string,
    podSandboxID: string,
    name: string,
    state: Lifecycle,
    env: seq<string>,
    mounts: seq<Mount>,
    cgroupPath: string,
    gpuDevices: seq<GPUDevice>)

  /** sharedPipe is the shared MPS server's socket directory below mpsPipe. quantity is the
      Kubernetes quantity grammar. */
  datatype Config = Config(
    prefix: string,
    mpsPipe: string,
    sharedPipe: string,
    failOpen: bool,
    smSharing: bool,
    injectCDI: bool,
    quantity: QuantityParser)

  datatype Adjustment = Adjustment(
    removedEnv: seq<string>,
    env: seq<(string, string)>,
    mounts: seq<Mount>,
    cdiDevices: seq<string>)

  // ---------------------------------------------------------------- environment tokens

  /** The key of a "KEY=VALUE" token, or the whole token when it has no '='. */
  function KeyOf(token: string): string {
    if token == "" || token[0] == '=' then "" else [token[0]] + KeyOf(token[1..])
  }

  predicate HasKey(env: seq<string>, key: string) { exists i :: 0 <= i < |env| && KeyOf(env[i]) == key }

  function Assign(key: string, value: string): string { key + "=" + value }

  lemma {:induction false} KeyOfAssign(key: string, value: string)
    requires '=' !in key
    ensures KeyOf(Assign(key, value)) == key
  {
    var t := Assign(key, value);
    if key == "" {
      assert t[0] == '=';
    } else {
      KeyOfAssign(key[1..], value);
      assert t[1..] == Assign(key[1..], value);
      assert key[0] in key;
    }
  }

  /** The hook's presence test agrees with splitting at the first '='. */
  lemma {:induction false} KeyTestAgrees(token: string, key: string)
    requires '=' !in key
    ensures token == key || HasPrefix(token, key + "=") <==> KeyOf(token) == key
  {
    if key == "" {
      assert HasPrefix(token, "" + "=") <==> token != "" && token[0] == '=';
    } else if token != "" && token[0] == key[0] {
      assert key[0] in key;
      KeyTestAgrees(token[1..], key[1..]);
      assert token == [token[0]] + token[1..] && key + "=" == [key[0]] + (key[1..] + "=");
      assert key == [key[0]] + key[1..];
    }
  }

  // ---------------------------------------------------------------- injected pieces

  /** MPSPipeMount: host source and in-container destination. */
  function PipeMount(cfg: Config, mode: ComputeMode): (string, string) {
    if mode == SMSharing then (cfg.sharedPipe, CONTAINER_PIPE_DIRECTORY) else (cfg.mpsPipe, cfg.mpsPipe)
  }

  predicate NamesNoDevice(device: string) { device in {"all", "void", "none", ""} }

  function CDINames(devices: seq<string>): seq<string> {
    if devices == [] then []
    else
      CDINames(devices[..|devices| - 1]) + CDIName(TrimSpace(devices[|devices| - 1]))
  }

  function CDIName(device: string): seq<string> {
    if NamesNoDevice(device) then [] else [CDI_KIND + "=" + device]
  }

  lemma CDINamesStep(devices: seq<string>, i: nat)
    requires i < |devices|
    ensures CDINames(devices[..i + 1]) == CDINames(devices[..i]) + CDIName(TrimSpace(devices[i]))
  {
    assert devices[..i + 1][..i] == devices[..i];
  }

  /** The positions of the entries that name a device. */
  function Naming(devices: seq<string>): seq<nat> {
    if devices == [] then []
    else
      var n := |devices| - 1;
      Naming(devices[..n]) + if NamesNoDevice(TrimSpace(devices[n])) then [] else [n]
  }

  lemma {:induction false} NamingMeans(devices: seq<string>, i: nat)
    ensures i in Naming(devices) <==> i < |devices| && !NamesNoDevice(TrimSpace(devices[i]))
  {
    if devices != [] { NamingMeans(devices[..|devices| - 1], i); }
  }

  lemma {:induction false} NamingAscends(devices: seq<string>, k: nat, l: nat)
    requires k < l < |Naming(devices)|
    ensures Naming(devices)[k] < Naming(devices)[l]
  {
    var n := |devices| - 1;
    var front := Naming(devices[..n]);
    if l < |front| {
      NamingAscends(devices[..n], k, l);
    } else {
      assert front[k] in front;
      NamingMeans(devices[..n], front[k]);
    }
  }

  lemma {:induction false} NamedInOrder(devices: seq<string>, k: nat)
    requires k < |Naming(devices)|
    ensures |CDINames(devices)| == |Naming(devices)|
    ensures Naming(devices)[k] < |devices|
    ensures CDINames(devices)[k] == CDI_KIND + "=" + TrimSpace(devices[Naming(devices)[k]])
  {
    var n := |devices| - 1;
    AsManyNames(devices[..n]);
    if k < |Naming(devices[..n])| { NamedInOrder(devices[..n], k); }
  }

  lemma {:induction false} AsManyNames(devices: seq<string>)
    ensures |CDINames(devices)| == |Naming(devices)|
  {
    if devices != [] { AsManyNames(devices[..|devices| - 1]); }
  }

  /** One name per entry that names a device, in the order listed; blank entries and those that stand
      for all, void or none get none. */
  lemma CDINamesMean(devices: seq<string>)
    ensures var at := Naming(devices);
            && |CDINames(devices)| == |at|
            && (forall i: nat :: i in at <==> i < |devices| && TrimSpace(devices[i]) !in {"all", "void", "none", ""})
            && (forall k, l :: 0 <= k < l < |at| ==> at[k] < at[l])
            && (forall k :: 0 <= k < |at| ==>
                  && at[k] < |devices|
                  && CDINames(devices)[k] == "k8s.device-plugin.nvidia.com/gpu" + "=" + TrimSpace(devices[at[k]]))
  {
    var at := Naming(devices);
    AsManyNames(devices);
    forall i: nat
      ensures i in at <==> i < |devices| && TrimSpace(devices[i]) !in {"all", "void", "none", ""}
    {
      NamingMeans(devices, i);
    }
    forall k, l | 0 <= k < l < |at| ensures at[k] < at[l] { NamingAscends(devices, k, l); }
    forall k | 0 <= k < |at|
      ensures at[k] < |devices|
      ensures CDINames(devices)[k] == "k8s.device-plugin.nvidia.com/gpu" + "=" + TrimSpace(devices[at[k]])
    {
      NamedInOrder(devices, k);
    }
  }

  /** The memory configuration the hook acts on, after defaulting; None when the container is
      not to be touched, an error when its creation is refused. */
  function Fractioning(cfg: Config, pod: PodSandbox, name: string): Result<Option<GPUMemoryConfig>> {
    match ParseGPUMemoryAnnotations(pod.annotations, name, cfg.prefix, cfg.quantity)
    case Err => if cfg.failOpen then Ok(None) else Err
    case Ok(mem) =>
      if mem.IsEmpty() then Ok(None)
      else if ParseComputeMode(pod.annotations, name, cfg.prefix, cfg.smSharing).Err? && !cfg.failOpen then Err
      else Ok(Some(mem.ApplyDefaults()))
  }

  function ModeOrDefault(cfg: Config, pod: PodSandbox, name: string): ComputeMode {
    match ParseComputeMode(pod.annotations, name, cfg.prefix, cfg.smSharing)
    case Ok(mode) => mode
    case Err => TimeSlicing
  }

  /** The unconditional part of an adjustment: memory variables, pipe variable, pipe mount. */
  function BaseAdjustment(mem: GPUMemoryConfig, pipe: (string, string)): Adjustment {
    Adjustment(
      [],
      (if mem.request != "" then [(ENV_REQUEST, mem.request)] else [])
      + (if mem.limit != "" then [(ENV_LIMIT, mem.limit)] else [])
      + [(ENV_PIPE, pipe.1)],
      [Mount(pipe.0, pipe.1, "bind", ["bind", "rw"])],
      [])
  }

  /** The device assignment overrides any value the container already carries. */
  function WithDevices(cfg: Config, ctr: Container, adj: Adjustment, devices: string): Adjustment {
    if devices == "" then adj
    else Adjustment(
        adj.removedEnv + (if HasKey(ctr.env, ENV_DEVICES) then [ENV_DEVICES] else []),
        adj.env + [(ENV_DEVICES, devices)],
        adj.mounts,
        adj.cdiDevices + (if cfg.injectCDI then CDINames(Split(devices, ',')) else []))
  }

  /** What the hook decides for a container. */
  function Decide(cfg: Config, pod: PodSandbox, ctr: Container): Result<Option<Adjustment>> {
    match Fractioning(cfg, pod, ctr.name)
    case Err => Err
    case Ok(None) => Ok(None)
    case Ok(Some(mem)) =>
      var base := BaseAdjustment(mem, PipeMount(cfg, ModeOrDefault(cfg, pod, ctr.name)));
      Ok(Some(WithDevices(cfg, ctr, base, ParseVisibleDevices(pod.annotations, ctr.name, cfg.prefix))))
  }

  /** adapter.container: what is recorded for a container. A missing pod has no annotations. */
  function Recorded(cfg: Config, pod: Option<PodSandbox>, ctr: Container): Option<ContainerInfo> {
    var p := if pod.Some? then pod.value else PodSandbox("", "", "", "", map[]);
    if ctr.id == "" then None
    else match ParseGPUMemoryAnnotations(p.annotations, ctr.name, cfg.prefix, cfg.quantity)
      case Err => None
      case Ok(mem) =>
        if mem.IsEmpty() then None
        else Some(ContainerInfo(ctr.id, ctr.name, p.name, p.namespace, p.uid, ctr.cgroupPath, ctr.gpuDevices,
            mem.EffectiveMemoryMiB()))
  }

  // ---------------------------------------------------------------- results

  /** A container that reaches the hook with an ID is recorded by the hook exactly when it
      gets an adjustment, and the recorded MiB is the number the injected limit spells. */
  lemma RecordedIffAdjusted(cfg: Config, pod: PodSandbox, ctr: Container)
    requires ctr.id != "" && Int64Valued(cfg.quantity)
    ensures Decide(cfg, pod, ctr).Ok? ==>
              (Recorded(cfg, Some(pod), ctr).Some? <==> Decide(cfg, pod, ctr).value.Some?)
    ensures Decide(cfg, pod, ctr).Ok? && Decide(cfg, pod, ctr).value.Some? ==>
              var env := Decide(cfg, pod, ctr).value.value.env;
              exists i :: 0 <= i < |env| && env[i].0 == ENV_LIMIT
                          && ParseInt64(env[i].1) == Some(Recorded(cfg, Some(pod), ctr).value.requestedMemoryMiB)
  {
    var parsed := ParseGPUMemoryAnnotations(pod.annotations, ctr.name, cfg.prefix, cfg.quantity);
    if parsed.Ok? {
      EffectiveMemoryIsInjectedLimit(pod.annotations, ctr.name, cfg.prefix, cfg.quantity);
      if Decide(cfg, pod, ctr).Ok? && Decide(cfg, pod, ctr).value.Some? {
        LimitIsSecond(cfg, pod, ctr, parsed.value);
      }
    }
  }

  lemma LimitIsSecond(cfg: Config, pod: PodSandbox, ctr: Container, mem: GPUMemoryConfig)
    requires ParseGPUMemoryAnnotations(pod.annotations, ctr.name, cfg.prefix, cfg.quantity) == Ok(mem)
    requires Decide(cfg, pod, ctr).Ok? && Decide(cfg, pod, ctr).value.Some?
    ensures var env := Decide(cfg, pod, ctr).value.value.env;
            |env| > 1 && env[1] == (ENV_LIMIT, mem.ApplyDefaults().limit)
  {
  }

  /** On a resync the adapter alone decides what is recorded. It then agrees with the hook
      exactly when the hook would not refuse the container for its compute mode: a running
      container with good memory annotations and a bad mode is recorded although a
      fail-closed hook would not create it. */
  lemma ResyncRecordsIffAdjustedUnlessModeRefused(cfg: Config, pod: PodSandbox, ctr: Container)
    requires ctr.id != ""
    ensures (Recorded(cfg, Some(pod), ctr).Some? <==>
               Decide(cfg, pod, ctr).Ok? && Decide(cfg, pod, ctr).value.Some?)
            <==>
            !(!cfg.failOpen
              && ParseComputeMode(pod.annotations, ctr.name, cfg.prefix, cfg.smSharing).Err?
              && ParseGPUMemoryAnnotations(pod.annotations, ctr.name, cfg.prefix, cfg.quantity).Ok?
              && !ParseGPUMemoryAnnotations(pod.annotations, ctr.name, cfg.prefix, cfg.quantity).value.IsEmpty())
  {
    var mem := ParseGPUMemoryAnnotations(pod.annotations, ctr.name, cfg.prefix, cfg.quantity);
    match mem {
      case Err =>
      case Ok(m) =>
        if m.IsEmpty() {
          assert Recorded(cfg, Some(pod), ctr) == None;
        }
    }
  }

  /** Such a container: a good limit, an unknown mode, a hook that fails closed. */
  lemma RefusedContainerIsRecorded(cfg: Config, pod: PodSandbox, ctr: Container)
    requires ctr.id != "" && !cfg.failOpen && cfg.quantity("1Gi") == Some(1024 * BYTES_PER_MIB)
    requires pod.annotations == map[
               AnnotationKey(LimitKey, cfg.prefix, ctr.name) := "1Gi",
               AnnotationKey(ModeKey, cfg.prefix, ctr.name) := "exclusive"]
    ensures Decide(cfg, pod, ctr).Err? && Recorded(cfg, Some(pod), ctr).Some?
  {
    LimitAndModeDiffer(cfg.prefix, ctr.name);
    LimitAloneParses(pod.annotations, ctr.name, cfg.prefix, cfg.quantity, "1Gi");
    UnknownModeIsRefused(pod.annotations, ctr.name, cfg.prefix, cfg.smSharing);
    ResyncRecordsIffAdjustedUnlessModeRefused(cfg, pod, ctr);
  }

  lemma LimitAndModeDiffer(prefix: string, name: string)
    ensures AnnotationKey(LimitKey, prefix, name) != AnnotationKey(ModeKey, prefix, name)
    ensures AnnotationKey(RequestKey, prefix, name) != AnnotationKey(ModeKey, prefix, name)
    ensures AnnotationKey(RequestKey, prefix, name) != AnnotationKey(LimitKey, prefix, name)
  {
    SuffixTail(LimitKey, prefix + name);
    SuffixTail(ModeKey, prefix + name);
    SuffixTail(RequestKey, prefix + name);
  }

  lemma LimitAloneParses(annotations: map<string, string>, name: string, prefix: string, quantity: QuantityParser,
      value: string)
    requires AnnotationKey(RequestKey, prefix, name) !in annotations
    requires AnnotationKey(LimitKey, prefix, name) in annotations
             && annotations[AnnotationKey(LimitKey, prefix, name)] == value
    requires quantity(value).Some? && quantity(value).value >= BYTES_PER_MIB
    ensures var parsed := ParseGPUMemoryAnnotations(annotations, name, prefix, quantity);
            parsed.Ok? && !parsed.value.IsEmpty()
  {
    assert Itoa(CeilDiv(quantity(value).value, BYTES_PER_MIB)) != "";
  }

  lemma UnknownModeIsRefused(annotations: map<string, string>, name: string, prefix: string, smSharing: bool)
    requires var key := AnnotationKey(ModeKey, prefix, name); key in annotations && annotations[key] == "exclusive"
    ensures ParseComputeMode(annotations, name, prefix, smSharing).Err?
  {
    TrimSpaceFixed("exclusive");
  }

  /** The annotations of other containers have no influence on a container's decision. */
  lemma DecisionIgnoresOtherContainers(cfg: Config, pod: PodSandbox, pod': PodSandbox, ctr: Container, other: string,
      k: Key, value: string)
    requires other != ctr.name
    requires pod' == pod.(annotations := pod.annotations[AnnotationKey(k, cfg.prefix, other) := value])
    ensures Decide(cfg, pod', ctr) == Decide(cfg, pod, ctr)
    ensures ctr.id != "" ==> Recorded(cfg, Some(pod'), ctr) == Recorded(cfg, Some(pod), ctr)
  {
    var key := AnnotationKey(k, cfg.prefix, other);
    forall kk: Key ensures AnnotationKey(kk, cfg.prefix, ctr.name) != key {
      if AnnotationKey(kk, cfg.prefix, ctr.name) == key { KeysNeverCollide(kk, ctr.name, k, other, cfg.prefix); }
    }
    ParsesAgree(cfg, pod.annotations, pod'.annotations, ctr.name);
  }

  lemma ParsesAgree(cfg: Config, a: map<string, string>, a': map<string, string>, name: string)
    requires forall k: Key :: var key := AnnotationKey(k, cfg.prefix, name);
             (key in a <==> key in a') && (key in a ==> a[key] == a'[key])
    ensures ParseGPUMemoryAnnotations(a, name, cfg.prefix, cfg.quantity)
            == ParseGPUMemoryAnnotations(a', name, cfg.prefix, cfg.quantity)
    ensures ParseVisibleDevices(a, name, cfg.prefix) == ParseVisibleDevices(a', name, cfg.prefix)
    ensures ParseComputeMode(a, name, cfg.prefix, cfg.smSharing)
            == ParseComputeMode(a', name, cfg.prefix, cfg.smSharing)
  {
  }

  // ---------------------------------------------------------------- the code

  /** The adjustment object the hook fills in. */
  class AdjustmentBuilder {
    var removedEnv: seq<string>
    var env: seq<(string, string)>
    var mounts: seq<Mount>
    var cdiDevices: seq<string>

    ghost function View(): Adjustment
      reads this
    {
      Adjustment(removedEnv, env, mounts, cdiDevices)
    }

    constructor ()
      ensures View() == Adjustment([], [], [], [])
    {
      removedEnv, env, mounts, cdiDevices := [], [], [], [];
    }

    method AddEnv(key: string, value: string)
      modifies this
      ensures View() == old(View()).(env := old(env) + [(key, value)])
    {
      env := env + [(key, value)];
    }

    method RemoveEnv(key: string)
      modifies this
      ensures View() == old(View()).(removedEnv := old(removedEnv) + [key])
    {
      removedEnv := removedEnv + [key];
    }

    method AddMount(m: Mount)
      modifies this
      ensures View() == old(View()).(mounts := old(mounts) + [m])
    {
      mounts := mounts + [m];
    }

    method AddCDIDevice(name: string)
      modifies this
      ensures View() == old(View()).(cdiDevices := old(cdiDevices) + [name])
    {
      cdiDevices := cdiDevices + [name];
    }
  }

  /** containerHasEnv. */
  method ContainerHasEnv(ctr: Container, key: string) returns (found: bool)
    requires '=' !in key
    ensures found <==> HasKey(ctr.env, key)
  {
    for i := 0 to |ctr.env|
      invariant forall j :: 0 <= j < i ==> KeyOf(ctr.env[j]) != key
    {
      KeyTestAgrees(ctr.env[i], key);
      if ctr.env[i] == key || HasPrefix(ctr.env[i], key + "=") { return true; }
    }
    found := false;
  }

  method CDIDeviceNames(visibleDevices: string) returns (names: seq<string>)
    ensures names == CDINames(Split(visibleDevices, ','))
  {
    names := [];
    var devices := Split(visibleDevices, ',');
    for i := 0 to |devices|
      invariant names == CDINames(devices[..i])
    {
      CDINamesStep(devices, i);
      var device := TrimSpace(devices[i]);
      if !NamesNoDevice(device) { names := names + [CDI_KIND + "=" + device]; }
    }
    assert devices[..|devices|] == devices;
  }

  class Plugin {
    const cfg: Config
    const events: Events.Processor

    constructor (cfg: Config, events: Events.Processor)
      ensures this.cfg == cfg && this.events == events
    {
      this.cfg := cfg;
      this.events := events;
    }

    method BuildAdjustment(pod: PodSandbox, ctr: Container) returns (failed: bool, adj: AdjustmentBuilder?)
      ensures failed <==> Decide(cfg, pod, ctr).Err?
      ensures !failed ==> (adj == null <==> Decide(cfg, pod, ctr).value == None)
      ensures !failed && adj != null ==> fresh(adj) && Some(adj.View()) == Decide(cfg, pod, ctr).value
      ensures failed ==> adj == null
    {
      failed, adj := false, null;
      var parsed := ParseGPUMemoryAnnotations(pod.annotations, ctr.name, cfg.prefix, cfg.quantity);
      if parsed.Err? { return !cfg.failOpen, null; }
      if parsed.value.IsEmpty() { return false, null; }
      var mem := parsed.value.ApplyDefaults();
      var parsedMode := ParseComputeMode(pod.annotations, ctr.name, cfg.prefix, cfg.smSharing);
      var mode := TimeSlicing;
      if parsedMode.Err? {
        if !cfg.failOpen { return true, null; }
      } else {
        mode := parsedMode.value;
      }
      var pipe := PipeMount(cfg, mode);
      adj := new AdjustmentBuilder();
      AddBase(adj, mem, pipe);
      AddDevices(adj, ctr, ParseVisibleDevices(pod.annotations, ctr.name, cfg.prefix));
    }

    method AddBase(adj: AdjustmentBuilder, mem: GPUMemoryConfig, pipe: (string, string))
      requires adj.View() == Adjustment([], [], [], [])
      modifies adj
      ensures adj.View() == BaseAdjustment(mem, pipe)
    {
      if mem.request != "" { adj.AddEnv(ENV_REQUEST, mem.request); }
      if mem.limit != "" { adj.AddEnv(ENV_LIMIT, mem.limit); }
      adj.AddEnv(ENV_PIPE, pipe.1);
      adj.AddMount(Mount(pipe.0, pipe.1, "bind", ["bind", "rw"]));
    }

    method AddDevices(adj: AdjustmentBuilder, ctr: Container, devices: string)
      modifies adj
      ensures adj.View() == WithDevices(cfg, ctr, old(adj.View()), devices)
    {
      if devices == "" { return; }
      var present := ContainerHasEnv(ctr, ENV_DEVICES);
      if present { adj.RemoveEnv(ENV_DEVICES); }
      adj.AddEnv(ENV_DEVICES, devices);
      if !cfg.injectCDI { return; }
      var names := CDIDeviceNames(devices);
      AddCDIDevices(adj, names);
    }

    method AddCDIDevices(adj: AdjustmentBuilder, names: seq<string>)
      modifies adj
      ensures adj.View() == old(adj.View()).(cdiDevices := old(adj.View()).cdiDevices + names)
    {
      ghost var before := adj.View();
      for i := 0 to |names|
        invariant adj.View() == before.(cdiDevices := before.cdiDevices + names[..i])
      {
        adj.AddCDIDevice(names[i]);
      }
      assert names[..|names|] == names;
    }

    /** The mapping event is offered to the queue exactly when creation goes ahead. */
    method CreateContainer(pod: PodSandbox, ctr: Container) returns (failed: bool, adj: AdjustmentBuilder?)
      modifies events
      ensures failed <==> Decide(cfg, pod, ctr).Err?
      ensures !failed ==> (adj == null <==> Decide(cfg, pod, ctr).value == None)
      ensures !failed && adj != null ==> Some(adj.View()) == Decide(cfg, pod, ctr).value
      ensures failed ==> events.View() == old(events.View())
      ensures !failed ==> events.View() == Events.Step(old(events.View()), Events.Offer(Events.UpsertEvent(
                match Recorded(cfg, Some(pod), ctr) case Some(info) => Events.Yields(info) case None => Events.Skips)))
    {
      failed, adj := BuildAdjustment(pod, ctr);
      if failed { return; }
      var adapted := match Recorded(cfg, Some(pod), ctr)
        case Some(info) => Events.Yields(info)
        case None => Events.Skips;
      events.Enqueue(Events.UpsertEvent(adapted));
    }
  }
}
