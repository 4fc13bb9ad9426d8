/** Digest resolution and the per-target lock files (hack/imagelock/main.go). The registry's answers
    are inputs: one per call. */
module Locks {
  import opened Text
  import opened Sorting
  import opened Catalog
  import opened ReleasePlans
  import LockNames

  // ---------------------------------------------------------------- digests of an index

  /** One descriptor of an image index; its platform may be absent. */
  datatype Manifest = Manifest(platform: Option<Platform>, digest: string)

  /** The digests of the manifests for a platform. */
  function DigestsFor(manifests: seq<Manifest>, p: Platform): seq<string> {
    if manifests == [] then []
    else
      var last := manifests[|manifests| - 1];
      DigestsFor(manifests[..|manifests| - 1], p) + (if last.platform == Some(p) then [last.digest] else [])
  }

  /** Exactly one manifest is for the platform. */
  ghost predicate Unambiguous(manifests: seq<Manifest>, p: Platform) {
    exists i :: 0 <= i < |manifests| && OnlyAt(manifests, p, i)
  }

  predicate OnlyAt(manifests: seq<Manifest>, p: Platform, i: nat)
    requires i < |manifests|
  {
    forall j :: 0 <= j < |manifests| ==> (manifests[j].platform == Some(p) <==> j == i)
  }

  lemma {:induction false} NoDigests(manifests: seq<Manifest>, p: Platform)
    ensures DigestsFor(manifests, p) == [] <==> forall j :: 0 <= j < |manifests| ==> manifests[j].platform != Some(p)
  {
    if manifests != [] {
      var n := |manifests| - 1;
      NoDigests(manifests[..n], p);
      assert forall j :: 0 <= j < n ==> manifests[..n][j] == manifests[j];
    }
  }

  lemma {:induction false} DigestOfOnly(manifests: seq<Manifest>, p: Platform, i: nat)
    requires i < |manifests| && OnlyAt(manifests, p, i)
    ensures DigestsFor(manifests, p) == [manifests[i].digest]
  {
    var n := |manifests| - 1;
    assert forall j :: 0 <= j < n ==> manifests[..n][j] == manifests[j];
    if i < n { DigestOfOnly(manifests[..n], p, i); } else { NoDigests(manifests[..n], p); }
  }

  lemma {:induction false} OnlyOfDigest(manifests: seq<Manifest>, p: Platform) returns (i: nat)
    requires |DigestsFor(manifests, p)| == 1
    ensures i < |manifests| && OnlyAt(manifests, p, i)
  {
    var n := |manifests| - 1;
    assert forall j :: 0 <= j < n ==> manifests[..n][j] == manifests[j];
    if manifests[n].platform == Some(p) {
      NoDigests(manifests[..n], p);
      i := n;
    } else {
      i := OnlyOfDigest(manifests[..n], p);
    }
  }

  lemma OneDigest(manifests: seq<Manifest>, p: Platform)
    ensures |DigestsFor(manifests, p)| == 1 <==> Unambiguous(manifests, p)
    ensures forall i :: 0 <= i < |manifests| && OnlyAt(manifests, p, i) ==>
              DigestsFor(manifests, p) == [manifests[i].digest]
  {
    forall i | 0 <= i < |manifests| && OnlyAt(manifests, p, i)
      ensures DigestsFor(manifests, p) == [manifests[i].digest]
    {
      DigestOfOnly(manifests, p, i);
    }
    if |DigestsFor(manifests, p)| == 1 { var i := OnlyOfDigest(manifests, p); }
  }

  /** Succeeds exactly when every requested platform has one manifest; the result then has the
      requested platforms and no others. */
  method ManifestDigestsPerPlatform(manifests: seq<Manifest>, platforms: seq<Platform>)
    returns (ok: bool, digests: map<Platform, string>)
    ensures ok <==> forall i :: 0 <= i < |platforms| ==> Unambiguous(manifests, platforms[i])
    ensures ok ==> forall p :: p in digests <==> p in platforms
    ensures ok ==> forall p, i :: p in platforms && 0 <= i < |manifests| && OnlyAt(manifests, p, i) ==>
            digests[p] == manifests[i].digest
  {
    digests := map[];
    for k := 0 to |platforms|
      invariant forall i :: 0 <= i < k ==> Unambiguous(manifests, platforms[i])
      invariant forall p :: p in digests <==> p in platforms[..k]
      invariant forall p :: p in digests ==> DigestsFor(manifests, p) == [digests[p]]
    {
      var matches := CollectDigests(manifests, platforms[k]);
      OneDigest(manifests, platforms[k]);
      if |matches| != 1 { return false, digests; }
      digests := digests[platforms[k] := matches[0]];
    }
    ok := true;
    assert platforms[..|platforms|] == platforms;
    forall p, i | p in platforms && 0 <= i < |manifests| && OnlyAt(manifests, p, i)
      ensures digests[p] == manifests[i].digest
    {
      OneDigest(manifests, p);
      assert [digests[p]] == [manifests[i].digest];
      assert [digests[p]][0] == [manifests[i].digest][0];
    }
  }

  method CollectDigests(manifests: seq<Manifest>, p: Platform) returns (matches: seq<string>)
    ensures matches == DigestsFor(manifests, p)
  {
    matches := [];
    for i := 0 to |manifests|
      invariant matches == DigestsFor(manifests[..i], p)
    {
      assert manifests[..i + 1][..i] == manifests[..i];
      if manifests[i].platform == Some(p) { matches := matches + [manifests[i].digest]; }
    }
    assert manifests[..|manifests|] == manifests;
  }

  // ---------------------------------------------------------------- resolution

  datatype Answer = Answer(indexDigest: string, digests: map<Platform, string>)

  datatype ResolvedImage = ResolvedImage(profile: string, name: string, repo: string, tag: string, indexDigest: string,
      digests: map<Platform, string>)

  predicate DigestsOk(answer: Answer, expected: seq<Platform>, digestOk: string -> bool) {
    digestOk(answer.indexDigest) && forall i :: 0 <= i < |expected| ==>
        expected[i] in answer.digests && digestOk(answer.digests[expected[i]])
  }

  method ValidateDigests(answer: Answer, expected: seq<Platform>, digestOk: string -> bool) returns (ok: bool)
    ensures ok <==> DigestsOk(answer, expected, digestOk)
  {
    if !digestOk(answer.indexDigest) { return false; }
    for i := 0 to |expected|
      invariant forall k :: 0 <= k < i ==> expected[k] in answer.digests && digestOk(answer.digests[expected[k]])
    {
      if expected[i] !in answer.digests { return false; }
      if !digestOk(answer.digests[expected[i]]) { return false; }
    }
    ok := true;
  }

  function Resolved(im: PlannedImage, answer: Answer): ResolvedImage {
    ResolvedImage(im.profile, im.name, im.repo, im.tag, answer.indexDigest, answer.digests)
  }

  predicate Answered(im: PlannedImage, resolve: PlannedImage -> Option<Answer>, digestOk: string -> bool) {
    resolve(im).Some? && DigestsOk(resolve(im).value, im.platforms, digestOk)
  }

  /** All images or none: one bad answer fails the whole resolution. */
  method ResolveImages(images: seq<PlannedImage>, resolve: PlannedImage -> Option<Answer>, digestOk: string -> bool)
    returns (ok: bool, resolved: seq<ResolvedImage>)
    ensures ok <==> forall i :: 0 <= i < |images| ==> Answered(images[i], resolve, digestOk)
    ensures ok ==> |resolved| == |images| && forall i :: 0 <= i < |images| ==>
            resolved[i] == Resolved(images[i], resolve(images[i]).value)
  {
    resolved := [];
    for i := 0 to |images|
      invariant |resolved| == i
      invariant forall k :: 0 <= k < i ==> Answered(images[k], resolve, digestOk)
      invariant forall k :: 0 <= k < i ==> resolved[k] == Resolved(images[k], resolve(images[k]).value)
    {
      var answer := resolve(images[i]);
      if answer.None? { return false, []; }
      ok := ValidateDigests(answer.value, images[i].platforms, digestOk);
      if !ok { return false, []; }
      resolved := resolved + [Resolved(images[i], answer.value)];
    }
    ok := true;
  }

  // ---------------------------------------------------------------- locks

  datatype LockedImage = LockedImage(name: string, image: string, source: string, indexDigest: string)

  datatype ImageLock = ImageLock(name: string, version: string, profile: string, platform: Platform,
      images: seq<LockedImage>)

  predicate Includes(im: ResolvedImage, g: Target) { im.profile == g.profile && g.platform in im.digests }

  function Locked(im: ResolvedImage, g: Target): LockedImage
    requires Includes(im, g)
  {
    LockedImage(im.name, im.repo + "@" + im.digests[g.platform], im.repo + ":" + im.tag, im.indexDigest)
  }

  /** The entries for a target, in resolution order. */
  function Entries(resolved: seq<ResolvedImage>, g: Target): seq<LockedImage> {
    if resolved == [] then []
    else
      var last := resolved[|resolved| - 1];
      Entries(resolved[..|resolved| - 1], g) + (if Includes(last, g) then [Locked(last, g)] else [])
  }

  function NameKey(l: LockedImage): (string, string) { (l.name, "") }

  ghost predicate IsLock(lock: ImageLock, name: string, version: string, g: Target, resolved: seq<ResolvedImage>) {
    && lock.name == name && lock.version == version && lock.profile == g.profile && lock.platform == g.platform
    && multiset(lock.images) == multiset(Entries(resolved, g))
    && Sorted(lock.images, ByPair(NameKey))
  }

  /** Fails exactly when no image is included. */
  method BuildLock(name: string, version: string, g: Target, resolved: seq<ResolvedImage>)
    returns (ok: bool, lock: ImageLock)
    ensures ok <==> Entries(resolved, g) != []
    ensures ok ==> IsLock(lock, name, version, g, resolved)
  {
    lock := ImageLock(name, version, g.profile, g.platform, []);
    var images := CollectEntries(resolved, g);
    if |images| == 0 { return false, lock; }
    ByPairIsStrict(NameKey);
    SortSorts(images, ByPair(NameKey));
    ok, lock := true, lock.(images := Sort(images, ByPair(NameKey)));
  }

  method CollectEntries(resolved: seq<ResolvedImage>, g: Target) returns (images: seq<LockedImage>)
    ensures images == Entries(resolved, g)
  {
    images := [];
    for i := 0 to |resolved|
      invariant images == Entries(resolved[..i], g)
    {
      assert resolved[..i + 1][..i] == resolved[..i];
      if resolved[i].profile != g.profile { continue; }
      if g.platform !in resolved[i].digests { continue; }
      images := images + [Locked(resolved[i], g)];
    }
    assert resolved[..|resolved|] == resolved;
  }

  /** A lock for every target, in order. */
  ghost predicate AreLocks(locks: seq<ImageLock>, name: string, version: string, targets: seq<Target>,
      resolved: seq<ResolvedImage>)
  {
    |locks| == |targets| &&
    (targets != [] ==>
      var n := |targets| - 1;
      AreLocks(locks[..n], name, version, targets[..n], resolved)
          && IsLock(locks[n], name, version, targets[n], resolved))
  }

  /** Every target has an image to lock. */
  predicate AllFilled(targets: seq<Target>, resolved: seq<ResolvedImage>) {
    targets != [] ==> AllFilled(targets[..|targets| - 1], resolved) && Entries(resolved, targets[|targets| - 1]) != []
  }

  lemma {:induction false} LockAt(locks: seq<ImageLock>, name: string, version: string, targets: seq<Target>,
      resolved: seq<ResolvedImage>, i: nat)
    requires AreLocks(locks, name, version, targets, resolved) && i < |targets|
    ensures IsLock(locks[i], name, version, targets[i], resolved)
  {
    if i < |targets| - 1 { LockAt(locks[..|targets| - 1], name, version, targets[..|targets| - 1], resolved, i); }
  }

  lemma {:induction false} AllFilledMeans(targets: seq<Target>, resolved: seq<ResolvedImage>)
    ensures AllFilled(targets, resolved) <==> forall i :: 0 <= i < |targets| ==> Entries(resolved, targets[i]) != []
  {
    if targets != [] { AllFilledMeans(targets[..|targets| - 1], resolved); }
  }

  lemma {:induction false} AllFilledPrefix(targets: seq<Target>, k: nat, resolved: seq<ResolvedImage>)
    requires k <= |targets| && AllFilled(targets, resolved)
    ensures AllFilled(targets[..k], resolved)
  {
    if k == |targets| {
      assert targets[..k] == targets;
    } else {
      AllFilledPrefix(targets[..|targets| - 1], k, resolved);
      assert targets[..|targets| - 1][..k] == targets[..k];
    }
  }

  /** A lock and the file it is to be written to. */
  datatype Output = Output(path: string, lock: ImageLock)

  function LocksOf(outputs: seq<Output>): seq<ImageLock> {
    seq(|outputs|, i requires 0 <= i < |outputs| => outputs[i].lock)
  }

  /** The path lockFileName gives a lock. */
  function PathOf(artifact: string, lock: ImageLock): string {
    LockNames.LockFileName(artifact, lock.version, Target(lock.profile, lock.platform))
  }

  predicate Placed(artifact: string, outputs: seq<Output>) {
    forall i :: 0 <= i < |outputs| ==> outputs[i].path == PathOf(artifact, outputs[i].lock)
  }

  lemma LocksGrow(outputs: seq<Output>, o: Output, name: string, version: string, targets: seq<Target>, i: nat,
      resolved: seq<ResolvedImage>)
    requires i < |targets| && AreLocks(LocksOf(outputs), name, version, targets[..i], resolved)
    requires IsLock(o.lock, name, version, targets[i], resolved)
    ensures AreLocks(LocksOf(outputs + [o]), name, version, targets[..i + 1], resolved)
  {
    assert targets[..i + 1][..i] == targets[..i];
    assert LocksOf(outputs + [o]) == LocksOf(outputs) + [o.lock];
    assert (LocksOf(outputs) + [o.lock])[..i] == LocksOf(outputs);
  }

  /** Fails exactly when some target's lock would be empty. */
  method MarshalLocks(artifact: string, name: string, version: string, targets: seq<Target>,
      resolved: seq<ResolvedImage>)
    returns (ok: bool, outputs: seq<Output>)
    ensures ok <==> AllFilled(targets, resolved)
    ensures ok ==> AreLocks(LocksOf(outputs), name, version, targets, resolved) && Placed(artifact, outputs)
  {
    outputs := [];
    for i := 0 to |targets|
      invariant AllFilled(targets[..i], resolved)
      invariant AreLocks(LocksOf(outputs), name, version, targets[..i], resolved)
      invariant Placed(artifact, outputs)
    {
      assert targets[..i + 1][..i] == targets[..i];
      if AllFilled(targets, resolved) { AllFilledPrefix(targets, i + 1, resolved); }
      var lock;
      ok, lock := BuildLock(name, version, targets[i], resolved);
      if !ok { return; }
      LocksGrow(outputs, Output(PathOf(artifact, lock), lock), name, version, targets, i, resolved);
      outputs := outputs + [Output(PathOf(artifact, lock), lock)];
    }
    ok := true;
    assert targets[..|targets|] == targets;
  }
}
