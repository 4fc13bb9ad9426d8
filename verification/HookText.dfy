/** What the create hook does with a container, said over the text of the pod's annotations
    (fractioning-manager/fractiond/internal: plugin.go, adapter.go, annotations/, injection/). */
module HookText {
  import opened Text
  import opened Annotations
  import opened ContainerStores
  import opened Hook
  import Audit

  /** What the pod says about a container under one of its keys. */
  function Said(cfg: Config, pod: PodSandbox, name: string, suffix: string): Option<string> {
    var key := cfg.prefix + name + suffix;
    if key in pod.annotations then Some(pod.annotations[key]) else None
  }

  function SaidRequest(cfg: Config, pod: PodSandbox, name: string): Option<string> {
    Said(cfg, pod, name, ".gpu-memory.request")
  }

  function SaidLimit(cfg: Config, pod: PodSandbox, name: string): Option<string> {
    Said(cfg, pod, name, ".gpu-memory.limit")
  }

  function SaidMode(cfg: Config, pod: PodSandbox, name: string): Option<string> {
    Said(cfg, pod, name, ".gpu-compute.mode")
  }

  function SaidDevices(cfg: Config, pod: PodSandbox, name: string): string {
    match Said(cfg, pod, name, ".gpus.devices")
    case Some(v) => TrimSpace(v)
    case None => ""
  }

  /** A quantity of at least 1 MiB. */
  predicate IsMemory(cfg: Config, v: string) { cfg.quantity(v).Some? && cfg.quantity(v).value >= 1048576 }

  predicate MemoryWellFormed(cfg: Config, pod: PodSandbox, name: string) {
    && (SaidRequest(cfg, pod, name).Some? ==> IsMemory(cfg, SaidRequest(cfg, pod, name).value))
    && (SaidLimit(cfg, pod, name).Some? ==> IsMemory(cfg, SaidLimit(cfg, pod, name).value))
  }

  predicate Fractional(cfg: Config, pod: PodSandbox, name: string) {
    SaidRequest(cfg, pod, name).Some? || SaidLimit(cfg, pod, name).Some?
  }

  /** The container asks for sm-sharing, and the node offers it. */
  predicate Shares(cfg: Config, pod: PodSandbox, name: string) {
    var mode := SaidMode(cfg, pod, name);
    cfg.smSharing && mode.Some? && TrimSpace(mode.value) == "sm-sharing"
  }

  predicate ModeWellFormed(cfg: Config, pod: PodSandbox, name: string) {
    var mode := SaidMode(cfg, pod, name);
    mode.None? || TrimSpace(mode.value) == "time-slicing" || Shares(cfg, pod, name)
  }

  /** A decimal numeral of the least number of MiB that holds a quantity. */
  ghost predicate SpellsMiB(cfg: Config, text: string, v: string) {
    cfg.quantity(v).Some? && exists m :: IsLeastMiB(cfg.quantity(v).value, m) && text == Itoa(m)
  }

  function Either(a: Option<string>, b: Option<string>): string
    requires a.Some? || b.Some?
  {
    if a.Some? then a.value else b.value
  }

  /** The container carries the variable, with or without a value. */
  predicate CarriesVariable(ctr: Container, key: string) {
    exists t | t in ctr.env :: t == key || HasPrefix(t, key + "=")
  }

  /** The adjustment a fractional container gets: request and limit in MiB, each standing in for the
      other when only one is said; the pipe of its compute mode, as a variable and as a mount; and the
      devices assigned to it, which replace what it carries and are named to the runtime. */
  ghost predicate Injects(cfg: Config, pod: PodSandbox, ctr: Container, adj: Adjustment)
    requires Fractional(cfg, pod, ctr.name)
  {
    var request, limit := SaidRequest(cfg, pod, ctr.name), SaidLimit(cfg, pod, ctr.name);
    var shares, devices := Shares(cfg, pod, ctr.name), SaidDevices(cfg, pod, ctr.name);
    && |adj.env| == (if devices == "" then 3 else 4)
    && adj.env[0].0 == "NVIDIA_GPU_MEMORY_REQUEST" && SpellsMiB(cfg, adj.env[0].1, Either(request, limit))
    && adj.env[1].0 == "NVIDIA_GPU_MEMORY_LIMIT" && SpellsMiB(cfg, adj.env[1].1, Either(limit, request))
    && adj.env[2] == ("CUDA_MPS_PIPE_DIRECTORY", if shares then "/tmp/nvidia-mps" else cfg.mpsPipe)
    && (devices != "" ==> adj.env[3] == ("NVIDIA_VISIBLE_DEVICES", devices))
    && adj.mounts == [if shares then Mount(cfg.sharedPipe, "/tmp/nvidia-mps", "bind", ["bind", "rw"])
                      else Mount(cfg.mpsPipe, cfg.mpsPipe, "bind", ["bind", "rw"])]
    && adj.removedEnv == (if devices != "" && CarriesVariable(ctr, "NVIDIA_VISIBLE_DEVICES")
                          then ["NVIDIA_VISIBLE_DEVICES"] else [])
    && adj.cdiDevices == (if devices != "" && cfg.injectCDI then CDINames(Split(devices, ',')) else [])
  }

  // ---------------------------------------------------------------- main results

  /** The hook refuses a container, leaves it alone or adjusts it, exactly as the annotations say: it
      refuses only when it does not fail open, and then for a malformed memory or, with memory said,
      an unknown compute mode; failing open, malformed memory leaves the container alone and an
      unknown mode counts as time-slicing. */
  lemma DecisionMeans(cfg: Config, pod: PodSandbox, ctr: Container)
    ensures var name, decision := ctr.name, Decide(cfg, pod, ctr);
            var wellFormed, fractional := MemoryWellFormed(cfg, pod, name), Fractional(cfg, pod, name);
            && (decision.Err? <==>
                  !cfg.failOpen && (!wellFormed || (fractional && !ModeWellFormed(cfg, pod, name))))
            && (decision == Ok(None) <==> !fractional || (cfg.failOpen && !wellFormed))
            && (decision.Ok? && decision.value.Some? ==> fractional && Injects(cfg, pod, ctr, decision.value.value))
  {
    MemoryParsed(cfg, pod, ctr.name);
    PipeOf(cfg, pod, ctr.name);
    if Decide(cfg, pod, ctr).Ok? && Decide(cfg, pod, ctr).value.Some? { DecidedInjects(cfg, pod, ctr); }
  }

  /** What is recorded of a container: nothing without an ID, without memory annotations or with
      malformed ones, and otherwise its own identity, its pod's, its devices, and the limit in MiB,
      for which the request stands in. */
  lemma RecordMeans(cfg: Config, pod: PodSandbox, ctr: Container)
    requires Int64Valued(cfg.quantity)
    ensures var name, record := ctr.name, Recorded(cfg, Some(pod), ctr);
            && (record.Some? <==> ctr.id != "" && MemoryWellFormed(cfg, pod, name) && Fractional(cfg, pod, name))
            && (record.Some? ==>
                  var info := record.value;
                  && info.containerID == ctr.id && info.container == name && info.cgroupPath == ctr.cgroupPath
                  && info.pod == pod.name && info.namespace == pod.namespace && info.podUID == pod.uid
                  && info.gpuDevices == ctr.gpuDevices
                  && SpellsMiB(cfg, Itoa(info.requestedMemoryMiB),
                               Either(SaidLimit(cfg, pod, name), SaidRequest(cfg, pod, name))))
  {
    KeysSpelled(cfg, pod, ctr.name);
    MemoryParsed(cfg, pod, ctr.name);
    var parsed := ParseGPUMemoryAnnotations(pod.annotations, ctr.name, cfg.prefix, cfg.quantity);
    if parsed.Ok? { EffectiveMemoryIsInjectedLimit(pod.annotations, ctr.name, cfg.prefix, cfg.quantity); }
  }

  /** The container has everything its annotations call for. */
  predicate HasItsPart(cfg: Config, pod: PodSandbox, ctr: Container) {
    && CarriesVariable(ctr, "NVIDIA_GPU_MEMORY_REQUEST") && CarriesVariable(ctr, "NVIDIA_GPU_MEMORY_LIMIT")
    && CarriesVariable(ctr, "CUDA_MPS_PIPE_DIRECTORY")
    && (SaidDevices(cfg, pod, ctr.name) != "" ==> CarriesVariable(ctr, "NVIDIA_VISIBLE_DEVICES"))
    && if Shares(cfg, pod, ctr.name) then HasMountOf(ctr, cfg.sharedPipe, "/tmp/nvidia-mps")
       else HasMountOf(ctr, cfg.mpsPipe, cfg.mpsPipe)
  }

  predicate HasMountOf(ctr: Container, source: string, destination: string) {
    exists m | m in ctr.mounts :: m.source == source && m.destination == destination
  }

  /** The audit stops exactly the live containers whose annotations call for an adjustment the hook
      would make and that lack part of it. */
  lemma ViolatorMeans(cfg: Config, pod: PodSandbox, ctr: Container)
    ensures Audit.IsViolator(cfg, Some(pod), ctr) <==>
            && ctr.id != "" && (ctr.state == Created || ctr.state == Running)
            && Fractional(cfg, pod, ctr.name) && MemoryWellFormed(cfg, pod, ctr.name)
            && (ModeWellFormed(cfg, pod, ctr.name) || cfg.failOpen)
            && !HasItsPart(cfg, pod, ctr)
  {
    DecisionMeans(cfg, pod, ctr);
    var d := Decide(cfg, pod, ctr);
    if d.Ok? && d.value.Some? { InjectedIsPart(cfg, pod, ctr, d.value.value); }
  }

  // ---------------------------------------------------------------- supporting lemmas

  lemma InjectedIsPart(cfg: Config, pod: PodSandbox, ctr: Container, adj: Adjustment)
    requires Fractional(cfg, pod, ctr.name) && Injects(cfg, pod, ctr, adj)
    ensures Audit.Injected(ctr, adj) <==> HasItsPart(cfg, pod, ctr)
  {
    Audit.NoEqualsSigns();
    CarriesIffHasKey(ctr, ENV_REQUEST);
    CarriesIffHasKey(ctr, ENV_LIMIT);
    CarriesIffHasKey(ctr, ENV_PIPE);
    CarriesIffHasKey(ctr, ENV_DEVICES);
    MountsAlike(ctr, adj.mounts[0].source, adj.mounts[0].destination);
    KeysCarried(ctr, adj, SaidDevices(cfg, pod, ctr.name) != "");
  }

  lemma MountsAlike(ctr: Container, source: string, destination: string)
    ensures HasMountOf(ctr, source, destination) <==> Audit.HasMount(ctr.mounts, source, destination)
  {
  }

  lemma KeysCarried(ctr: Container, adj: Adjustment, placed: bool)
    requires |adj.env| == (if placed then 4 else 3)
    requires adj.env[0].0 == ENV_REQUEST && adj.env[1].0 == ENV_LIMIT && adj.env[2].0 == ENV_PIPE
    requires placed ==> adj.env[3].0 == ENV_DEVICES
    ensures (forall i :: 0 <= i < |adj.env| ==> HasKey(ctr.env, adj.env[i].0)) <==>
            && HasKey(ctr.env, ENV_REQUEST) && HasKey(ctr.env, ENV_LIMIT) && HasKey(ctr.env, ENV_PIPE)
            && (placed ==> HasKey(ctr.env, ENV_DEVICES))
  {
  }

  lemma KeysSpelled(cfg: Config, pod: PodSandbox, name: string)
    ensures AnnotationKey(RequestKey, cfg.prefix, name) == cfg.prefix + name + ".gpu-memory.request"
    ensures AnnotationKey(LimitKey, cfg.prefix, name) == cfg.prefix + name + ".gpu-memory.limit"
    ensures AnnotationKey(DevicesKey, cfg.prefix, name) == cfg.prefix + name + ".gpus.devices"
    ensures AnnotationKey(ModeKey, cfg.prefix, name) == cfg.prefix + name + ".gpu-compute.mode"
  {
  }

  lemma ValueParsed(cfg: Config, v: string)
    ensures ParseToMemoryMiB(v, cfg.quantity).Ok? <==> IsMemory(cfg, v)
    ensures ParseToMemoryMiB(v, cfg.quantity).Ok? ==>
              var text := ParseToMemoryMiB(v, cfg.quantity).value; text != "" && SpellsMiB(cfg, text, v)
  {
    if IsMemory(cfg, v) { CeilDivIsLeast(cfg.quantity(v).value); }
  }

  lemma MemoryParsed(cfg: Config, pod: PodSandbox, name: string)
    ensures var parsed := ParseGPUMemoryAnnotations(pod.annotations, name, cfg.prefix, cfg.quantity);
            var request, limit := SaidRequest(cfg, pod, name), SaidLimit(cfg, pod, name);
            && (parsed.Ok? <==> MemoryWellFormed(cfg, pod, name))
            && (parsed.Ok? ==>
                  && (parsed.value.IsEmpty() <==> !Fractional(cfg, pod, name))
                  && (request.Some? <==> parsed.value.request != "")
                  && (limit.Some? <==> parsed.value.limit != "")
                  && (request.Some? ==> SpellsMiB(cfg, parsed.value.request, request.value))
                  && (limit.Some? ==> SpellsMiB(cfg, parsed.value.limit, limit.value)))
  {
    KeysSpelled(cfg, pod, name);
    if SaidRequest(cfg, pod, name).Some? { ValueParsed(cfg, SaidRequest(cfg, pod, name).value); }
    if SaidLimit(cfg, pod, name).Some? { ValueParsed(cfg, SaidLimit(cfg, pod, name).value); }
  }

  lemma CarriesIffHasKey(ctr: Container, key: string)
    requires '=' !in key
    ensures CarriesVariable(ctr, key) <==> HasKey(ctr.env, key)
  {
    if CarriesVariable(ctr, key) {
      var t :| t in ctr.env && (t == key || HasPrefix(t, key + "="));
      var i :| 0 <= i < |ctr.env| && ctr.env[i] == t;
      KeyTestAgrees(ctr.env[i], key);
    }
    if HasKey(ctr.env, key) {
      var i :| 0 <= i < |ctr.env| && KeyOf(ctr.env[i]) == key;
      KeyTestAgrees(ctr.env[i], key);
      assert ctr.env[i] in ctr.env;
    }
  }

  lemma PipeOf(cfg: Config, pod: PodSandbox, name: string)
    ensures PipeMount(cfg, ModeOrDefault(cfg, pod, name))
            == if Shares(cfg, pod, name) then (cfg.sharedPipe, "/tmp/nvidia-mps") else (cfg.mpsPipe, cfg.mpsPipe)
    ensures ParseComputeMode(pod.annotations, name, cfg.prefix, cfg.smSharing).Ok? <==> ModeWellFormed(cfg, pod, name)
  {
    KeysSpelled(cfg, pod, name);
  }

  /** The memory values to inject are both there and stand in for each other. */
  ghost predicate Defaulted(cfg: Config, pod: PodSandbox, name: string, mem: GPUMemoryConfig)
    requires Fractional(cfg, pod, name)
  {
    var request, limit := SaidRequest(cfg, pod, name), SaidLimit(cfg, pod, name);
    && mem.request != "" && SpellsMiB(cfg, mem.request, Either(request, limit))
    && mem.limit != "" && SpellsMiB(cfg, mem.limit, Either(limit, request))
  }

  lemma MemoryDefaulted(cfg: Config, pod: PodSandbox, name: string)
    requires MemoryWellFormed(cfg, pod, name) && Fractional(cfg, pod, name)
    ensures var parsed := ParseGPUMemoryAnnotations(pod.annotations, name, cfg.prefix, cfg.quantity);
            parsed.Ok? && Defaulted(cfg, pod, name, parsed.value.ApplyDefaults())
  {
    MemoryParsed(cfg, pod, name);
  }

  lemma DecidedInjects(cfg: Config, pod: PodSandbox, ctr: Container)
    requires Decide(cfg, pod, ctr).Ok? && Decide(cfg, pod, ctr).value.Some?
    ensures Fractional(cfg, pod, ctr.name) && Injects(cfg, pod, ctr, Decide(cfg, pod, ctr).value.value)
  {
    var parsed := ParseGPUMemoryAnnotations(pod.annotations, ctr.name, cfg.prefix, cfg.quantity);
    var pipe := PipeMount(cfg, ModeOrDefault(cfg, pod, ctr.name));
    MemoryParsed(cfg, pod, ctr.name);
    MemoryDefaulted(cfg, pod, ctr.name);
    PipeOf(cfg, pod, ctr.name);
    DevicesSpelled(cfg, pod, ctr.name);
    AdjustmentInjects(cfg, pod, ctr, parsed.value.ApplyDefaults(), pipe);
  }

  lemma DevicesSpelled(cfg: Config, pod: PodSandbox, name: string)
    ensures ParseVisibleDevices(pod.annotations, name, cfg.prefix) == SaidDevices(cfg, pod, name)
  {
    KeysSpelled(cfg, pod, name);
    assert TrimSpace("") == "";
  }

  lemma AdjustmentInjects(cfg: Config, pod: PodSandbox, ctr: Container, mem: GPUMemoryConfig, pipe: (string, string))
    requires Fractional(cfg, pod, ctr.name) && Defaulted(cfg, pod, ctr.name, mem)
    requires pipe == if Shares(cfg, pod, ctr.name) then (cfg.sharedPipe, "/tmp/nvidia-mps")
                     else (cfg.mpsPipe, cfg.mpsPipe)
    ensures Injects(cfg, pod, ctr, WithDevices(cfg, ctr, BaseAdjustment(mem, pipe), SaidDevices(cfg, pod, ctr.name)))
  {
    CarriesIffHasKey(ctr, ENV_DEVICES);
    assert BaseAdjustment(mem, pipe).env == [(ENV_REQUEST, mem.request), (ENV_LIMIT, mem.limit), (ENV_PIPE, pipe.1)];
  }
}
