/** Per-container GPU-memory, device and compute-mode annotations
    (fractioning-manager/fractiond/internal/annotations/annotations.go). */
module Annotations {
  import opened Text

  const BYTES_PER_MIB := 1024 * 1024

  /** The byte value Kubernetes' quantity grammar gives a string; None for a parse error.
      The grammar itself is not modelled: every result below holds for every such function. */
  type QuantityParser = string -> Option<int>

  datatype Result<+T> = Ok(value: T) | Err

  datatype ComputeMode = TimeSlicing | SMSharing

  datatype GPUMemoryConfig = GPUMemoryConfig(request: string, limit: string) {
    predicate IsEmpty() { request == "" && limit == "" }

    function ApplyDefaults(): GPUMemoryConfig {
      var r := if request == "" then limit else request;
      GPUMemoryConfig(r, if limit == "" then r else limit)
    }

    function EffectiveMemoryMiB(): int {
      var value := if limit == "" then request else limit;
      if value == "" then 0
      else match ParseInt64(value)
        case Some(mib) => mib
        case None => 0
    }
  }

  // ---------------------------------------------------------------- keys

  datatype Key = RequestKey | LimitKey | DevicesKey | ModeKey

  function KeySuffix(k: Key): string {
    match k
    case RequestKey => ".gpu-memory.request"
    case LimitKey => ".gpu-memory.limit"
    case DevicesKey => ".gpus.devices"
    case ModeKey => ".gpu-compute.mode"
  }

  function AnnotationKey(k: Key, prefix: string, containerName: string): string {
    prefix + containerName + KeySuffix(k)
  }

  /** Keys of different containers, or of different kinds, never coincide, whatever the
      container names are. */
  lemma KeysNeverCollide(k1: Key, name1: string, k2: Key, name2: string, prefix: string)
    requires AnnotationKey(k1, prefix, name1) == AnnotationKey(k2, prefix, name2)
    ensures k1 == k2 && name1 == name2
  {
    var a, b := AnnotationKey(k1, prefix, name1), AnnotationKey(k2, prefix, name2);
    SuffixTail(k1, prefix + name1);
    SuffixTail(k2, prefix + name2);
    assert a[|prefix|..|a| - |KeySuffix(k1)|] == name1;
    assert b[|prefix|..|b| - |KeySuffix(k2)|] == name2;
  }

  /** The last two characters of a key already tell its kind. */
  lemma SuffixTail(k: Key, stem: string)
    ensures var s := stem + KeySuffix(k);
            |s| >= 2 && s[|s| - 2..] == (match k
              case RequestKey => "st"
              case LimitKey => "it"
              case DevicesKey => "es"
              case ModeKey => "de")
  {
    var suf := KeySuffix(k);
    assert (stem + suf)[|stem + suf| - 2] == suf[|suf| - 2];
    assert (stem + suf)[|stem + suf| - 1] == suf[|suf| - 1];
  }

  // ---------------------------------------------------------------- parsing

  function CeilDiv(value: int, divisor: int): int
    requires value >= 1 && divisor >= 1
  {
    1 + (value - 1) / divisor
  }

  function QuantityToMemoryMiB(bytes: Option<int>): Result<int> {
    match bytes
    case None => Err
    case Some(b) => if b < BYTES_PER_MIB then Err else Ok(CeilDiv(b, BYTES_PER_MIB))
  }

  function ParseToMemoryMiB(value: string, quantity: QuantityParser): Result<string> {
    match QuantityToMemoryMiB(quantity(value))
    case Err => Err
    case Ok(mib) => Ok(Itoa(mib))
  }

  function ParseMemoryKey(annotations: map<string, string>, key: string, quantity: QuantityParser): Result<string> {
    if key in annotations then ParseToMemoryMiB(annotations[key], quantity) else Ok("")
  }

  function ParseGPUMemoryAnnotations(annotations: map<string, string>, name: string, prefix: string,
      quantity: QuantityParser)
    : Result<GPUMemoryConfig>
  {
    match ParseMemoryKey(annotations, AnnotationKey(RequestKey, prefix, name), quantity)
    case Err => Err
    case Ok(request) =>
      match ParseMemoryKey(annotations, AnnotationKey(LimitKey, prefix, name), quantity)
      case Err => Err
      case Ok(limit) => Ok(GPUMemoryConfig(request, limit))
  }

  function ParseVisibleDevices(annotations: map<string, string>, name: string, prefix: string): string {
    var key := AnnotationKey(DevicesKey, prefix, name);
    TrimSpace(if key in annotations then annotations[key] else "")
  }

  function ParseComputeMode(annotations: map<string, string>, name: string, prefix: string,
      smSharing: bool): Result<ComputeMode>
  {
    var key := AnnotationKey(ModeKey, prefix, name);
    if key !in annotations then Ok(TimeSlicing)
    else
      var val := TrimSpace(annotations[key]);
      if val == "time-slicing" then Ok(TimeSlicing)
      else if val == "sm-sharing" && smSharing then Ok(SMSharing)
      else Err
  }

  // ---------------------------------------------------------------- results

  /** The least whole number of MiB that holds the given bytes. */
  ghost predicate IsLeastMiB(bytes: int, m: int) {
    m * BYTES_PER_MIB >= bytes && forall k: int :: k * BYTES_PER_MIB >= bytes ==> m <= k
  }

  ghost predicate Int64Valued(quantity: QuantityParser) {
    forall s :: quantity(s).Some? ==> MIN_INT64 <= quantity(s).value <= MAX_INT64
  }

  /** Every accepted quantity becomes the least sufficient MiB count, stays an int64, and
      survives being rendered and parsed back. */
  lemma MemoryRoundTrip(value: string, quantity: QuantityParser)
    requires Int64Valued(quantity)
    ensures ParseToMemoryMiB(value, quantity).Ok? <==> quantity(value).Some? && quantity(value).value >= BYTES_PER_MIB
    ensures ParseToMemoryMiB(value, quantity).Ok? ==>
              var text := ParseToMemoryMiB(value, quantity).value;
              text != "" && ParseInt64(text).Some? && ParseInt64(text).value >= 1
              && IsLeastMiB(quantity(value).value, ParseInt64(text).value)
  {
    if quantity(value).Some? && quantity(value).value >= BYTES_PER_MIB {
      var b := quantity(value).value;
      var m := CeilDiv(b, BYTES_PER_MIB);
      CeilDivIsLeast(b);
      ItoaRoundTrip(m);
    }
  }

  lemma CeilDivIsLeast(b: int)
    requires b >= 1
    ensures IsLeastMiB(b, CeilDiv(b, BYTES_PER_MIB))
    ensures 1 <= CeilDiv(b, BYTES_PER_MIB) <= b
  {
    var m := CeilDiv(b, BYTES_PER_MIB);
    assert (m - 1) * BYTES_PER_MIB < b <= m * BYTES_PER_MIB;
    forall k: int | k * BYTES_PER_MIB >= b ensures m <= k {
      assert (m - 1) * BYTES_PER_MIB < k * BYTES_PER_MIB;
    }
  }

  /** The MiB value the mapping records is the one the injected limit spells, and it is the
      least sufficient count for the limit, or for the request when there is no limit. */
  lemma EffectiveMemoryIsInjectedLimit(annotations: map<string, string>, name: string, prefix: string,
      quantity: QuantityParser)
    requires Int64Valued(quantity)
    requires ParseGPUMemoryAnnotations(annotations, name, prefix, quantity).Ok?
    ensures var cfg := ParseGPUMemoryAnnotations(annotations, name, prefix, quantity).value;
            var full := cfg.ApplyDefaults();
            var limitKey, requestKey := AnnotationKey(LimitKey, prefix, name), AnnotationKey(RequestKey, prefix, name);
            && (cfg.IsEmpty() <==> limitKey !in annotations && requestKey !in annotations)
            && (cfg.IsEmpty() ==> cfg.EffectiveMemoryMiB() == 0)
            && (!cfg.IsEmpty() ==>
                  && full.request != "" && full.limit != ""
                  && ParseInt64(full.limit) == Some(cfg.EffectiveMemoryMiB())
                  && cfg.EffectiveMemoryMiB() >= 1
                  && var source := annotations[if limitKey in annotations then limitKey else requestKey];
                     quantity(source).Some? && IsLeastMiB(quantity(source).value, cfg.EffectiveMemoryMiB()))
  {
    var limitKey, requestKey := AnnotationKey(LimitKey, prefix, name), AnnotationKey(RequestKey, prefix, name);
    if limitKey in annotations { MemoryRoundTrip(annotations[limitKey], quantity); }
    if requestKey in annotations { MemoryRoundTrip(annotations[requestKey], quantity); }
  }
}
