/** Retroactive enforcement: finding containers that run without what the create hook would
    have injected, and stopping them
    (fractioning-manager/fractiond/internal/audit: detector.go, remediate.go). */
module Audit {
  import opened Text
  import opened Annotations
  import opened Hook

  const INJECTED_KEYS := [ENV_REQUEST, ENV_LIMIT, ENV_PIPE, ENV_DEVICES]

  datatype Violator = Violator(containerID: string, container: string, pod: string, namespace: string,
      missing: seq<string>)

  // ---------------------------------------------------------------- reference definitions

  predicate HasMount(mounts: seq<Mount>, source: string, destination: string) {
    exists i :: 0 <= i < |mounts| && mounts[i].source == source && mounts[i].destination == destination
  }

  /** A container that already carries every variable and mount of an adjustment. */
  predicate Injected(ctr: Container, adj: Adjustment) {
    && (forall i :: 0 <= i < |adj.env| ==> HasKey(ctr.env, adj.env[i].0))
    && (forall i :: 0 <= i < |adj.mounts| ==> HasMount(ctr.mounts, adj.mounts[i].source, adj.mounts[i].destination))
  }

  /** Only these are ever inspected. */
  predicate Inspected(pod: Option<PodSandbox>, ctr: Container) {
    ctr.id != "" && pod.Some? && (ctr.state == Created || ctr.state == Running)
  }

  /** The hook would adjust the container, and the container lacks part of that adjustment. */
  predicate IsViolator(cfg: Config, pod: Option<PodSandbox>, ctr: Container) {
    && Inspected(pod, ctr)
    && var d := Decide(cfg, pod.value, ctr);
       d.Ok? && d.value.Some? && !Injected(ctr, d.value.value)
  }

  function LookupOf(pods: seq<PodSandbox>): map<string, PodSandbox> {
    if pods == [] then map[]
    else
      var last := pods[|pods| - 1];
      var before := LookupOf(pods[..|pods| - 1]);
      if last.id == "" then before else before[last.id := last]
  }

  /** The last position at which a sandbox is listed under an ID. */
  predicate LastUnder(pods: seq<PodSandbox>, id: string, i: nat) {
    i < |pods| && pods[i].id == id && forall j :: i < j < |pods| ==> pods[j].id != id
  }

  /** A non-blank ID that is listed is looked up to the last sandbox listed under it. */
  lemma {:induction false} LookupMeans(pods: seq<PodSandbox>, id: string)
    ensures id in LookupOf(pods) <==> id != "" && exists i: nat :: LastUnder(pods, id, i)
    ensures forall i: nat :: id != "" && LastUnder(pods, id, i) ==> LookupOf(pods)[id] == pods[i]
  {
    if pods != [] {
      var n := |pods| - 1;
      var front := pods[..n];
      LookupMeans(front, id);
      if pods[n].id == id {
        assert LastUnder(pods, id, n);
      } else {
        assert forall i: nat :: LastUnder(front, id, i) <==> LastUnder(pods, id, i);
      }
    }
  }

  function PodOf(pods: seq<PodSandbox>, ctr: Container): Option<PodSandbox> {
    var m := LookupOf(pods);
    if ctr.podSandboxID in m then Some(m[ctr.podSandboxID]) else None
  }

  /** The IDs of the violators of a snapshot, in snapshot order. */
  function ViolatorIDs(cfg: Config, pods: seq<PodSandbox>, ctrs: seq<Container>): seq<string> {
    if ctrs == [] then []
    else
      var last := ctrs[|ctrs| - 1];
      ViolatorIDs(cfg, pods, ctrs[..|ctrs| - 1]) + (if IsViolator(cfg, PodOf(pods, last), last) then [last.id] else [])
  }

  function IDsOf(vs: seq<Violator>): seq<string> {
    seq(|vs|, i requires 0 <= i < |vs| => vs[i].containerID)
  }

  // ---------------------------------------------------------------- applying an adjustment

  function DropKeys(env: seq<string>, keys: seq<string>): seq<string> {
    if env == [] then []
    else
      var last := env[|env| - 1];
      DropKeys(env[..|env| - 1], keys) + (if KeyOf(last) in keys then [] else [last])
  }

  /** Sets a variable: replaces every definition of the key, or appends one. */
  function SetKey(env: seq<string>, key: string, value: string): seq<string> {
    if HasKey(env, key)
    then seq(|env|, i requires 0 <= i < |env| => if KeyOf(env[i]) == key then Assign(key, value) else env[i])
    else env + [Assign(key, value)]
  }

  function SetKeys(env: seq<string>, vars: seq<(string, string)>): seq<string> {
    if vars == [] then env
    else
      var last := vars[|vars| - 1];
      SetKey(SetKeys(env, vars[..|vars| - 1]), last.0, last.1)
  }

  /** The container the runtime creates from an adjustment. */
  function Applied(ctr: Container, adj: Adjustment): Container {
    ctr.(env := SetKeys(DropKeys(ctr.env, adj.removedEnv), adj.env), mounts := ctr.mounts + adj.mounts)
  }

  // ---------------------------------------------------------------- main results

  /** No stop loop: a container created through the hook is never a violator, whatever ID and
      state the runtime gives it afterwards. */
  lemma CreatedThroughHookIsNoViolator(cfg: Config, pod: PodSandbox, ctr: Container, adj: Adjustment, id: string,
      state: Lifecycle)
    requires Decide(cfg, pod, ctr) == Ok(Some(adj))
    ensures !IsViolator(cfg, Some(pod), Applied(ctr, adj).(id := id, state := state))
  {
    var live := Applied(ctr, adj).(id := id, state := state);
    var again := Decide(cfg, pod, live).value.value;
    assert again.env == adj.env && again.mounts == adj.mounts;
    AppliedIsInjected(cfg, pod, ctr, adj);
  }

  /** Nor does the hook leave a wrong value behind: every definition of an injected variable in
      the created container is the injected one. */
  lemma CreatedThroughHookHasInjectedValues(cfg: Config, pod: PodSandbox, ctr: Container, adj: Adjustment, i: nat,
      j: nat)
    requires Decide(cfg, pod, ctr) == Ok(Some(adj))
    requires i < |adj.env| && j < |Applied(ctr, adj).env|
    ensures KeyOf(Applied(ctr, adj).env[j]) == adj.env[i].0 ==>
            Applied(ctr, adj).env[j] == Assign(adj.env[i].0, adj.env[i].1)
  {
    AdjustmentKeysDistinct(cfg, pod, ctr, adj);
    SetKeysValue(DropKeys(ctr.env, adj.removedEnv), adj.env, i, j);
  }

  /** After an audit pass, if every container now present was there and not reported, or has
      been recreated through the hook, the next pass reports nothing. */
  lemma {:induction false} NextAuditFindsNothing(cfg: Config, pods: seq<PodSandbox>, before: seq<Container>,
      now: seq<Container>)
    requires forall i :: 0 <= i < |now| ==>
               (now[i] in before && now[i].id !in ViolatorIDs(cfg, pods, before)) || Recreated(cfg, pods, now[i])
    ensures ViolatorIDs(cfg, pods, now) == []
  {
    if now != [] {
      NextAuditFindsNothing(cfg, pods, before, now[..|now| - 1]);
      var c := now[|now| - 1];
      if Recreated(cfg, pods, c) {
        var pod := PodOf(pods, c).value;
        var c0, adj :| Decide(cfg, pod, c0) == Ok(Some(adj)) && c == Applied(c0, adj).(id := c.id, state := c.state);
        CreatedThroughHookIsNoViolator(cfg, pod, c0, adj, c.id, c.state);
      } else {
        ReportedIfViolator(cfg, pods, before, c);
      }
    }
  }

  ghost predicate Recreated(cfg: Config, pods: seq<PodSandbox>, c: Container) {
    PodOf(pods, c).Some? &&
    exists c0, adj :: Decide(cfg, PodOf(pods, c).value, c0) == Ok(Some(adj))
        && c == Applied(c0, adj).(id := c.id, state := c.state)
  }

  lemma {:induction false} ReportedIfViolator(cfg: Config, pods: seq<PodSandbox>, ctrs: seq<Container>, c: Container)
    requires c in ctrs
    ensures IsViolator(cfg, PodOf(pods, c), c) ==> c.id in ViolatorIDs(cfg, pods, ctrs)
  {
    if c != ctrs[|ctrs| - 1] {
      assert c in ctrs[..|ctrs| - 1];
      ReportedIfViolator(cfg, pods, ctrs[..|ctrs| - 1], c);
    }
  }

  // ---------------------------------------------------------------- the code

  method PodSandboxLookup(pods: seq<PodSandbox>) returns (out: map<string, PodSandbox>)
    ensures out == LookupOf(pods)
  {
    out := map[];
    for i := 0 to |pods|
      invariant out == LookupOf(pods[..i])
    {
      assert pods[..i + 1][..i] == pods[..i];
      if pods[i].id != "" { out := out[pods[i].id := pods[i]]; }
    }
    assert pods[..|pods|] == pods;
  }

  /** presentEnv: which of the injected keys a container defines. */
  method PresentEnv(env: seq<string>) returns (present: set<string>)
    ensures forall k :: k in present <==> k in INJECTED_KEYS && HasKey(env, k)
  {
    present := {};
    for i := 0 to |env|
      invariant forall k :: k in present <==> k in INJECTED_KEYS && HasKey(env[..i], k)
    {
      var key := KeyOf(env[i]);
      HasKeySnoc(env, i);
      if key in INJECTED_KEYS { present := present + {key}; }
    }
    assert env[..|env|] == env;
  }

  method FindMount(mounts: seq<Mount>, source: string, destination: string) returns (found: bool)
    ensures found == HasMount(mounts, source, destination)
  {
    for i := 0 to |mounts|
      invariant !HasMount(mounts[..i], source, destination)
    {
      if mounts[i].source == source && mounts[i].destination == destination { return true; }
      assert forall j :: 0 <= j < i ==> mounts[..i + 1][j] == mounts[..i][j];
    }
    assert mounts[..|mounts|] == mounts;
    found := false;
  }

  /** missingInjection: nothing is missing exactly when the live container carries everything
      the given memory configuration, device assignment and compute mode call for, and a
      variable is named as missing exactly when it is called for and absent. */
  method MissingInjection(cfg: Config, mem: GPUMemoryConfig, devices: string, mode: ComputeMode, ctr: Container)
    returns (missing: seq<string>)
    ensures missing == [] <==> Injected(ctr, WithDevices(cfg, ctr, BaseAdjustment(mem, PipeMount(cfg, mode)), devices))
    ensures forall k :: "env:" + k in missing <==>
              CallsFor(WithDevices(cfg, ctr, BaseAdjustment(mem, PipeMount(cfg, mode)), devices), k)
                  && !HasKey(ctr.env, k)
    ensures var pipe := PipeMount(cfg, mode);
            "mount:" + (pipe.0 + ":" + pipe.1) in missing <==> !HasMount(ctr.mounts, pipe.0, pipe.1)
  {
    var env := PresentEnv(ctr.env);
    var pipe := PipeMount(cfg, mode);
    ghost var absent;
    missing, absent := MissingVariables(mem, devices, env);
    assert ("mount:" + (pipe.0 + ":" + pipe.1))[0] == 'm';
    var mounted := FindMount(ctr.mounts, pipe.0, pipe.1);
    if !mounted {
      NameMount(missing, absent, pipe.0 + ":" + pipe.1);
      missing := missing + ["mount:" + (pipe.0 + ":" + pipe.1)];
    }
    InjectedMeans(cfg, mem, devices, pipe, ctr);
    CallsForMeans(cfg, mem, devices, pipe, ctr);
  }

  /** The variables a memory configuration and a device assignment call for. */
  predicate CalledFor(mem: GPUMemoryConfig, devices: string, key: string) {
    || key == ENV_PIPE || (mem.limit != "" && key == ENV_LIMIT)
    || (mem.request != "" && key == ENV_REQUEST) || (devices != "" && key == ENV_DEVICES)
  }

  /** The part of missingInjection about variables. */
  method MissingVariables(mem: GPUMemoryConfig, devices: string, env: set<string>)
    returns (missing: seq<string>, ghost absent: set<string>)
    ensures NamesAbsent(missing, absent) && (missing == [] <==> absent == {})
    ensures forall k :: k in absent <==> k !in env && CalledFor(mem, devices, k)
    ensures forall i :: 0 <= i < |missing| ==> missing[i] != "" && missing[i][0] == 'e'
  {
    missing, absent := [], {};
    if ENV_PIPE !in env {
      NameVariable(missing, absent, ENV_PIPE);
      missing, absent := missing + ["env:" + ENV_PIPE], absent + {ENV_PIPE};
    }
    if mem.limit != "" && ENV_LIMIT !in env {
      NameVariable(missing, absent, ENV_LIMIT);
      missing, absent := missing + ["env:" + ENV_LIMIT], absent + {ENV_LIMIT};
    }
    if mem.request != "" && ENV_REQUEST !in env {
      NameVariable(missing, absent, ENV_REQUEST);
      missing, absent := missing + ["env:" + ENV_REQUEST], absent + {ENV_REQUEST};
    }
    if devices != "" && ENV_DEVICES !in env {
      NameVariable(missing, absent, ENV_DEVICES);
      missing, absent := missing + ["env:" + ENV_DEVICES], absent + {ENV_DEVICES};
    }
  }

  predicate CallsFor(adj: Adjustment, key: string) { exists i :: 0 <= i < |adj.env| && adj.env[i].0 == key }

  ghost predicate NamesAbsent(missing: seq<string>, absent: set<string>) {
    forall k :: "env:" + k in missing <==> k in absent
  }

  lemma NameVariable(missing: seq<string>, absent: set<string>, key: string)
    requires NamesAbsent(missing, absent)
    ensures NamesAbsent(missing + ["env:" + key], absent + {key})
  {
    forall k ensures "env:" + k == "env:" + key <==> k == key {
      assert ("env:" + k)[4..] == k && ("env:" + key)[4..] == key;
    }
  }

  lemma NameMount(missing: seq<string>, absent: set<string>, what: string)
    requires NamesAbsent(missing, absent)
    ensures NamesAbsent(missing + ["mount:" + what], absent)
  {
    forall k ensures "env:" + k != "mount:" + what {
      assert ("env:" + k)[0] == 'e' && ("mount:" + what)[0] == 'm';
    }
  }

  /** The variables of an adjustment, spelled out. */
  function Variables(mem: GPUMemoryConfig, devices: string, pipe: (string, string)): seq<(string, string)> {
    (if mem.request != "" then [(ENV_REQUEST, mem.request)] else [])
    + (if mem.limit != "" then [(ENV_LIMIT, mem.limit)] else [])
    + [(ENV_PIPE, pipe.1)]
    + (if devices != "" then [(ENV_DEVICES, devices)] else [])
  }

  lemma AdjustmentVariables(cfg: Config, mem: GPUMemoryConfig, devices: string, pipe: (string, string), ctr: Container)
    ensures WithDevices(cfg, ctr, BaseAdjustment(mem, pipe), devices).env == Variables(mem, devices, pipe)
  {
  }

  lemma VariablesMean(mem: GPUMemoryConfig, devices: string, pipe: (string, string))
    ensures var env := Variables(mem, devices, pipe);
            && (forall i :: 0 <= i < |env| ==> CalledFor(mem, devices, env[i].0))
            && (forall k :: CalledFor(mem, devices, k) ==> exists i :: 0 <= i < |env| && env[i].0 == k)
  {
    var env := Variables(mem, devices, pipe);
    var r := if mem.request != "" then 1 else 0;
    var l := if mem.limit != "" then 1 else 0;
    assert env[r + l].0 == ENV_PIPE;
    assert mem.request != "" ==> env[0].0 == ENV_REQUEST;
    assert mem.limit != "" ==> env[r].0 == ENV_LIMIT;
    assert devices != "" ==> env[r + l + 1].0 == ENV_DEVICES;
  }

  lemma CallsForMeans(cfg: Config, mem: GPUMemoryConfig, devices: string, pipe: (string, string), ctr: Container)
    ensures forall k :: CallsFor(WithDevices(cfg, ctr, BaseAdjustment(mem, pipe), devices), k) <==>
              CalledFor(mem, devices, k)
  {
    AdjustmentVariables(cfg, mem, devices, pipe, ctr);
    VariablesMean(mem, devices, pipe);
  }

  /** check: exact. Whatever it reports the hook would have adjusted, and whatever it passes
      over carries the whole adjustment, is refused or left alone by the hook, or cannot be
      acted upon. */
  method Check(cfg: Config, pod: Option<PodSandbox>, ctr: Container) returns (v: Option<Violator>)
    ensures v.Some? <==> IsViolator(cfg, pod, ctr)
    ensures v.Some? ==> v.value.containerID == ctr.id && v.value.container == ctr.name
                        && v.value.pod == pod.value.name && v.value.namespace == pod.value.namespace
                        && v.value.missing != []
  {
    if ctr.id == "" || pod.None? { return None; }
    if ctr.state != Created && ctr.state != Running { return None; }
    var p := pod.value;
    var parsed := ParseGPUMemoryAnnotations(p.annotations, ctr.name, cfg.prefix, cfg.quantity);
    if parsed.Err? { return None; }
    if parsed.value.IsEmpty() { return None; }
    var mem := parsed.value.ApplyDefaults();
    var parsedMode := ParseComputeMode(p.annotations, ctr.name, cfg.prefix, cfg.smSharing);
    var mode := TimeSlicing;
    if parsedMode.Err? {
      if !cfg.failOpen { return None; }
    } else {
      mode := parsedMode.value;
    }
    var devices := ParseVisibleDevices(p.annotations, ctr.name, cfg.prefix);
    var missing := MissingInjection(cfg, mem, devices, mode, ctr);
    if |missing| == 0 { return None; }
    v := Some(Violator(ctr.id, ctr.name, p.name, p.namespace, missing));
  }

  method Violators(cfg: Config, pods: seq<PodSandbox>, ctrs: seq<Container>) returns (out: seq<Violator>)
    ensures IDsOf(out) == ViolatorIDs(cfg, pods, ctrs)
  {
    var podsByID := PodSandboxLookup(pods);
    out := [];
    for i := 0 to |ctrs|
      invariant IDsOf(out) == ViolatorIDs(cfg, pods, ctrs[..i])
    {
      assert ctrs[..i + 1][..i] == ctrs[..i];
      var pod := if ctrs[i].podSandboxID in podsByID then Some(podsByID[ctrs[i].podSandboxID]) else None;
      var v := Check(cfg, pod, ctrs[i]);
      if v.Some? {
        assert IDsOf(out + [v.value]) == IDsOf(out) + [v.value.containerID];
        out := out + [v.value];
      }
    }
    assert ctrs[..|ctrs|] == ctrs;
  }

  /** The container runtime as the remediator sees it: each stop attempt succeeds or fails. */
  class Stopper {
    var attempts: seq<string>
    var stopped: set<string>

    constructor ()
      ensures attempts == [] && stopped == {}
    {
      attempts, stopped := [], {};
    }

    method Stop(id: string, fails: bool) returns (ok: bool)
      modifies this
      ensures attempts == old(attempts) + [id] && ok == !fails
      ensures stopped == if fails then old(stopped) else old(stopped) + {id}
    {
      attempts := attempts + [id];
      if !fails { stopped := stopped + {id}; }
      ok := !fails;
    }
  }

  /** remediate: every violator gets exactly one stop attempt, in order, whichever of the
      earlier attempts failed; those whose attempt succeeds end up stopped. */
  method Remediate(stopper: Stopper, vs: seq<Violator>, fails: seq<bool>)
    requires |fails| == |vs|
    modifies stopper
    ensures stopper.attempts == old(stopper.attempts) + IDsOf(vs)
    ensures forall i :: 0 <= i < |vs| && !fails[i] ==> vs[i].containerID in stopper.stopped
  {
    for i := 0 to |vs|
      invariant stopper.attempts == old(stopper.attempts) + IDsOf(vs[..i])
      invariant forall j :: 0 <= j < i && !fails[j] ==> vs[j].containerID in stopper.stopped
    {
      assert IDsOf(vs[..i + 1]) == IDsOf(vs[..i]) + [vs[i].containerID];
      var ok := stopper.Stop(vs[i].containerID, fails[i]);
      if !ok { continue; }
    }
    assert vs[..|vs|] == vs;
  }

  // ---------------------------------------------------------------- supporting lemmas

  lemma HasKeySnoc(env: seq<string>, i: nat)
    requires i < |env|
    ensures forall k :: HasKey(env[..i + 1], k) <==> HasKey(env[..i], k) || KeyOf(env[i]) == k
  {
    forall k ensures HasKey(env[..i + 1], k) <==> HasKey(env[..i], k) || KeyOf(env[i]) == k {
      if HasKey(env[..i], k) {
        var j :| 0 <= j < i && KeyOf(env[..i][j]) == k;
        assert env[..i + 1][j] == env[j];
      }
      if KeyOf(env[i]) == k { assert env[..i + 1][i] == env[i]; }
      if HasKey(env[..i + 1], k) {
        var j :| 0 <= j < i + 1 && KeyOf(env[..i + 1][j]) == k;
        if j < i { assert env[..i][j] == env[j]; }
      }
    }
  }

  lemma InjectedMeans(cfg: Config, mem: GPUMemoryConfig, devices: string, pipe: (string, string), ctr: Container)
    ensures Injected(ctr, WithDevices(cfg, ctr, BaseAdjustment(mem, pipe), devices)) <==>
            && (forall k :: CalledFor(mem, devices, k) ==> HasKey(ctr.env, k))
            && HasMount(ctr.mounts, pipe.0, pipe.1)
  {
    var adj := WithDevices(cfg, ctr, BaseAdjustment(mem, pipe), devices);
    AdjustmentVariables(cfg, mem, devices, pipe, ctr);
    KeysPresentIff(ctr.env, mem, devices, pipe);
    assert adj.mounts[0].source == pipe.0 && adj.mounts[0].destination == pipe.1;
  }

  lemma KeysPresentIff(env: seq<string>, mem: GPUMemoryConfig, devices: string, pipe: (string, string))
    ensures var vars := Variables(mem, devices, pipe);
            (forall i :: 0 <= i < |vars| ==> HasKey(env, vars[i].0)) <==>
            (forall k :: CalledFor(mem, devices, k) ==> HasKey(env, k))
  {
    VariablesMean(mem, devices, pipe);
  }

  lemma AdjustmentKeysDistinct(cfg: Config, pod: PodSandbox, ctr: Container, adj: Adjustment)
    requires Decide(cfg, pod, ctr) == Ok(Some(adj))
    ensures forall i :: 0 <= i < |adj.env| ==> '=' !in adj.env[i].0
    ensures forall i, j :: 0 <= i < j < |adj.env| ==> adj.env[i].0 != adj.env[j].0
  {
    var mem := Fractioning(cfg, pod, ctr.name).value.value;
    var pipe := PipeMount(cfg, ModeOrDefault(cfg, pod, ctr.name));
    VariablesDistinct(cfg, mem, ParseVisibleDevices(pod.annotations, ctr.name, cfg.prefix), pipe, ctr);
  }

  lemma VariablesDistinct(cfg: Config, mem: GPUMemoryConfig, devices: string, pipe: (string, string), ctr: Container)
    ensures var env := WithDevices(cfg, ctr, BaseAdjustment(mem, pipe), devices).env;
            && (forall i :: 0 <= i < |env| ==> '=' !in env[i].0)
            && (forall i, j :: 0 <= i < j < |env| ==> env[i].0 != env[j].0)
  {
    NoEqualsSigns();
    assert |ENV_REQUEST| == 25 && |ENV_LIMIT| == 23 && |ENV_PIPE| == 23 && |ENV_DEVICES| == 22;
    assert ENV_LIMIT[0] != ENV_PIPE[0];
  }

  lemma NoEqualsSigns()
    ensures '=' !in ENV_REQUEST && '=' !in ENV_LIMIT && '=' !in ENV_PIPE && '=' !in ENV_DEVICES
  {
  }

  lemma AppliedIsInjected(cfg: Config, pod: PodSandbox, ctr: Container, adj: Adjustment)
    requires Decide(cfg, pod, ctr) == Ok(Some(adj))
    ensures Injected(Applied(ctr, adj), adj)
  {
    AdjustmentKeysDistinct(cfg, pod, ctr, adj);
    forall i | 0 <= i < |adj.env| ensures HasKey(Applied(ctr, adj).env, adj.env[i].0) {
      SetKeysPresent(DropKeys(ctr.env, adj.removedEnv), adj.env, i);
    }
    forall i | 0 <= i < |adj.mounts|
      ensures HasMount(Applied(ctr, adj).mounts, adj.mounts[i].source, adj.mounts[i].destination)
    {
      assert Applied(ctr, adj).mounts[|ctr.mounts| + i] == adj.mounts[i];
    }
  }

  lemma SetKeyKeeps(env: seq<string>, key: string, value: string, k: string)
    requires '=' !in key
    ensures HasKey(SetKey(env, key, value), k) <==> HasKey(env, k) || k == key
  {
    KeyOfAssign(key, value);
    var env' := SetKey(env, key, value);
    if HasKey(env, k) {
      var i :| 0 <= i < |env| && KeyOf(env[i]) == k;
      assert KeyOf(env'[i]) == k;
    }
    if k == key {
      if HasKey(env, key) {
        var i :| 0 <= i < |env| && KeyOf(env[i]) == key;
        assert KeyOf(env'[i]) == key;
      } else {
        assert KeyOf(env'[|env|]) == key;
      }
    }
  }

  lemma {:induction false} SetKeysPresent(env: seq<string>, vars: seq<(string, string)>, i: nat)
    requires i < |vars| && forall j :: 0 <= j < |vars| ==> '=' !in vars[j].0
    ensures HasKey(SetKeys(env, vars), vars[i].0)
  {
    var front, last := vars[..|vars| - 1], vars[|vars| - 1];
    SetKeyKeeps(SetKeys(env, front), last.0, last.1, vars[i].0);
    if i < |vars| - 1 { SetKeysPresent(env, front, i); }
  }

  lemma {:induction false} SetKeysValue(env: seq<string>, vars: seq<(string, string)>, i: nat, j: nat)
    requires i < |vars| && forall k :: 0 <= k < |vars| ==> '=' !in vars[k].0
    requires forall k, l :: 0 <= k < l < |vars| ==> vars[k].0 != vars[l].0
    requires j < |SetKeys(env, vars)|
    ensures KeyOf(SetKeys(env, vars)[j]) == vars[i].0 ==> SetKeys(env, vars)[j] == Assign(vars[i].0, vars[i].1)
  {
    var front, last := vars[..|vars| - 1], vars[|vars| - 1];
    var before := SetKeys(env, front);
    KeyOfAssign(last.0, last.1);
    if i < |vars| - 1 {
      assert vars[i].0 != last.0;
      if j < |before| { SetKeysValue(env, front, i, j); }
    }
  }
}
