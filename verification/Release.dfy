/** The whole tool: validate and plan a catalog, resolve its images, build and publish the locks
    (hack/imagelock/main.go). */
module Release {
  import opened Text
  import opened Sorting
  import opened Catalog
  import opened CatalogValidation
  import opened ReleasePlans
  import opened Locks
  import opened LockNames
  import opened LockPartition
  import opened Publish

  // ---------------------------------------------------------------- what a release is

  /** An entry pins an image to the digest answered for it on the target's platform. */
  ghost predicate Pins(l: LockedImage, im: PlannedImage, g: Target, answer: Answer, digestOk: string -> bool) {
    && im.profile == g.profile && g.platform in im.platforms && g.platform in answer.digests
    && l == LockedImage(im.name, im.repo + "@" + answer.digests[g.platform], im.repo + ":" + im.tag, answer.indexDigest)
    && digestOk(answer.digests[g.platform]) && digestOk(answer.indexDigest)
  }

  /** Every entry pins a planned image. */
  ghost predicate AllPinned(
    images: seq<PlannedImage>, g: Target, lock: ImageLock, resolve: PlannedImage -> Option<Answer>,
        digestOk: string -> bool)
  {
    forall l :: l in lock.images ==>
      exists im :: im in images && resolve(im).Some? && Pins(l, im, g, resolve(im).value, digestOk)
  }

  /** The lock of a target: not empty, strictly sorted by image name, every entry pinned. */
  ghost predicate LockFor(
    images: seq<PlannedImage>, name: string, version: string, g: Target, lock: ImageLock,
    resolve: PlannedImage -> Option<Answer>, digestOk: string -> bool)
  {
    && lock.name == name && lock.version == version && lock.profile == g.profile && lock.platform == g.platform
    && lock.images != [] && Ascending(lock.images, NameKey)
    && AllPinned(images, g, lock, resolve, digestOk)
  }

  /** The outputs are the locks of the plan's targets, each under its file name, and together they
      hold every combination that no exclusion matches once, and nothing else. */
  ghost predicate IsRelease(
    cat: ImageCatalog, version: string, plan: ReleasePlan, outputs: seq<Output>,
    resolve: PlannedImage -> Option<Answer>, digestOk: string -> bool)
  {
    && |outputs| == |plan.targets| && Placed(cat.artifactName, outputs)
    && multiset(AllTriples(LocksOf(outputs))) == multiset(Kept(cat, Product(cat)))
    && |AllTriples(LocksOf(outputs))| == plan.combinations
    && forall i :: 0 <= i < |outputs| ==>
         LockFor(plan.images, cat.name, version, plan.targets[i], outputs[i].lock, resolve, digestOk)
  }

  /** The resolver answers for exactly the platforms it is asked for. */
  ghost predicate AnswersExactly(resolve: PlannedImage -> Option<Answer>) {
    forall im :: resolve(im).Some? ==> forall p :: p in resolve(im).value.digests <==> p in im.platforms
  }

  /** Every planned image is answered and resolved accordingly. */
  ghost predicate ResolvedBy(
    images: seq<PlannedImage>, resolved: seq<ResolvedImage>, resolve: PlannedImage -> Option<Answer>,
        digestOk: string -> bool)
  {
    && |resolved| == |images|
    && forall i :: 0 <= i < |images| ==>
         Answered(images[i], resolve, digestOk) && resolved[i] == Resolved(images[i], resolve(images[i]).value)
  }

  // ---------------------------------------------------------------- from catalog to outputs

  lemma {:induction false} EntryComesFrom(resolved: seq<ResolvedImage>, g: Target, l: LockedImage) returns (i: nat)
    requires l in Entries(resolved, g)
    ensures i < |resolved| && Includes(resolved[i], g) && l == Locked(resolved[i], g)
  {
    var n := |resolved| - 1;
    if l in Entries(resolved[..n], g) { i := EntryComesFrom(resolved[..n], g, l); } else { i := n; }
  }

  lemma LockIsPinned(
    plan: ReleasePlan, resolved: seq<ResolvedImage>, resolve: PlannedImage -> Option<Answer>, digestOk: string -> bool,
    name: string, version: string, g: Target, lock: ImageLock)
    requires AnswersExactly(resolve) && ResolvedBy(plan.images, resolved, resolve, digestOk)
    requires IsLock(lock, name, version, g, resolved)
    ensures AllPinned(plan.images, g, lock, resolve, digestOk)
  {
    forall l | l in lock.images
      ensures exists im :: im in plan.images && resolve(im).Some? && Pins(l, im, g, resolve(im).value, digestOk)
    {
      assert l in multiset(lock.images);
      var i := EntryComesFrom(resolved, g, l);
      var im := plan.images[i];
      assert Answered(im, resolve, digestOk);
      assert g.platform in im.platforms;
      var k :| 0 <= k < |im.platforms| && im.platforms[k] == g.platform;
      assert Pins(l, im, g, resolve(im).value, digestOk);
    }
  }

  /** From catalog to outputs only planning and resolution can fail. */
  method LockRelease(
    cat: ImageCatalog, version: string, tagOk: string -> bool, resolve: PlannedImage -> Option<Answer>,
        digestOk: string -> bool)
    returns (ok: bool, plan: ReleasePlan, outputs: seq<Output>)
    requires Valid(cat) && AnswersExactly(resolve)
    ensures Plannable(cat, version, tagOk) ==> IsPlan(cat, version, plan) && AllTagged(cat, version, plan)
    ensures ok <==> Plannable(cat, version, tagOk) && forall im :: im in plan.images ==> Answered(im, resolve, digestOk)
    ensures ok ==> IsRelease(cat, version, plan, outputs, resolve, digestOk)
  {
    outputs := [];
    ok, plan := BuildReleasePlan(cat, version, tagOk);
    if !ok { return; }
    var resolved;
    ok, resolved := ResolveImages(plan.images, resolve, digestOk);
    if !ok { return; }
    NoLocksEmpty(cat, version, tagOk, plan, resolved);
    ok, outputs := MarshalLocks(cat.artifactName, cat.name, version, plan.targets, resolved);
    MarshalledIsRelease(cat, version, plan, resolved, outputs, resolve, digestOk);
  }

  lemma MarshalledIsRelease(
    cat: ImageCatalog, version: string, plan: ReleasePlan, resolved: seq<ResolvedImage>, outputs: seq<Output>,
    resolve: PlannedImage -> Option<Answer>, digestOk: string -> bool)
    requires Valid(cat) && IsPlan(cat, version, plan) && AnswersExactly(resolve)
    requires ResolvedBy(plan.images, resolved, resolve, digestOk)
    requires AllFilled(plan.targets, resolved) && Placed(cat.artifactName, outputs)
    requires AreLocks(LocksOf(outputs), cat.name, version, plan.targets, resolved)
    ensures IsRelease(cat, version, plan, outputs, resolve, digestOk)
  {
    var locks := LocksOf(outputs);
    assert Exact(plan.images, resolved);
    LocksPartitionPlan(cat, version, plan, resolved, cat.name, locks);
    PlanHoldsKept(cat, version, plan);
    LocksAscend(cat, version, plan, resolved, cat.name, locks);
    forall i | 0 <= i < |outputs|
      ensures LockFor(plan.images, cat.name, version, plan.targets[i], outputs[i].lock, resolve, digestOk)
    {
      assert locks[i] == outputs[i].lock;
      LockAt(locks, cat.name, version, plan.targets, resolved, i);
      LockIsPinned(plan, resolved, resolve, digestOk, cat.name, version, plan.targets[i], locks[i]);
    }
  }

  /** In a plan of an accepted catalog a tag is its profile's template with the version in the place of
      the one placeholder. */
  lemma AcceptedTags(cat: ImageCatalog, version: string, plan: ReleasePlan, nameOk: string -> bool,
      repositoryOk: string -> bool)
    requires Accepted(cat, nameOk, repositoryOk) && IsPlan(cat, version, plan) && AllTagged(cat, version, plan)
    ensures forall im :: im in plan.images ==> FilledOnce(cat, version, im)
  {
    forall im | im in plan.images ensures FilledOnce(cat, version, im) {
      assert TaggedByProfile(cat, version, im);
      var p :| p in cat.profiles && p.name == im.profile && FilledIn(p.tagTemplate, version, im.tag);
      OnceIffAround(p.tagTemplate);
      var before, after :| AroundOnce(p.tagTemplate, before, after);
      AroundOccurs(p.tagTemplate, before, after);
    }
  }

  lemma AroundOccurs(template: string, before: string, after: string)
    requires Around(template, before, after)
    ensures !NoPlaceholder(template)
  {
    assert template[|before|..|before| + |VERSION_PLACEHOLDER|] == VERSION_PLACEHOLDER;
    assert OccursAt(template, VERSION_PLACEHOLDER, |before|);
  }

  // ---------------------------------------------------------------- from outputs to the directory

  /** Every lock of a release is in the directory after it is published if and only if the file names
      tell the targets apart. */
  lemma AllPublishedIffNamesTellApart(
    cat: ImageCatalog, version: string, plan: ReleasePlan, outputs: seq<Output>,
    resolve: PlannedImage -> Option<Answer>, digestOk: string -> bool, files: Files)
    requires IsPlan(cat, version, plan) && IsRelease(cat, version, plan, outputs, resolve, digestOk)
    ensures (forall i :: 0 <= i < |outputs| ==> Survives(PublishAll(files, outputs), outputs[i]))
            <==> NamesTellApart(cat.artifactName, version, plan.targets)
  {
    forall i | 0 <= i < |outputs|
      ensures outputs[i].path == LockFileName(cat.artifactName, version, plan.targets[i])
      ensures Target(outputs[i].lock.profile, outputs[i].lock.platform) == plan.targets[i]
    {
      assert LockFor(plan.images, cat.name, version, plan.targets[i], outputs[i].lock, resolve, digestOk);
    }
    DistinctIffTellApart(cat.artifactName, version, plan.targets, outputs);
    AllSurviveIffDistinctPaths(files, outputs);
  }

  lemma DistinctIffTellApart(artifact: string, version: string, targets: seq<Target>, outputs: seq<Output>)
    requires NoDuplicates(targets) && |outputs| == |targets|
    requires forall i :: 0 <= i < |outputs| ==> outputs[i].path == LockFileName(artifact, version, targets[i])
    ensures DistinctPaths(outputs) <==> NamesTellApart(artifact, version, targets)
  {
    if NamesTellApart(artifact, version, targets) {
      forall i, j | 0 <= i < j < |outputs| ensures outputs[i].path != outputs[j].path {
        assert targets[i] in targets && targets[j] in targets;
      }
    }
    if DistinctPaths(outputs) {
      forall g, h | g in targets && h in targets
          && LockFileName(artifact, version, g) == LockFileName(artifact, version, h)
        ensures g == h
      {
        var i :| 0 <= i < |targets| && targets[i] == g;
        var j :| 0 <= j < |targets| && targets[j] == h;
        assert outputs[i].path == outputs[j].path;
      }
    }
  }

  /** run. Succeeds if and only if the catalog is accepted and has a plan, every image is answered and
      no file operation fails. Unless outputs were built the directory is untouched; if they were, it
      is as writing them leaves it, and after a success every lock is there exactly when the file
      names tell the targets apart. */
  method Run(
    cat: ImageCatalog, version: string, nameOk: string -> bool, repositoryOk: string -> bool, tagOk: string -> bool,
    resolve: PlannedImage -> Option<Answer>, digestOk: string -> bool, dir: OutputDirectory, f: Faults)
    returns (ok: bool, built: bool, plan: ReleasePlan, outputs: seq<Output>)
    requires dir.Valid() && AnswersExactly(resolve)
    modifies dir
    ensures dir.Valid()
    ensures Accepted(cat, nameOk, repositoryOk) && Plannable(cat, version, tagOk) ==>
              IsPlan(cat, version, plan) && forall im :: im in plan.images ==> FilledOnce(cat, version, im)
    ensures built <==>
            && Accepted(cat, nameOk, repositoryOk) && Plannable(cat, version, tagOk)
            && forall im :: im in plan.images ==> Answered(im, resolve, digestOk)
    ensures built ==>
            IsRelease(cat, version, plan, outputs, resolve, digestOk) && Outcome(old(dir.files), dir.files, outputs, f)
    ensures !built ==> dir.files == old(dir.files)
    ensures ok <==> built && Succeeds(f, |outputs|)
    ensures ok ==>
              ((forall i :: 0 <= i < |outputs| ==> Survives(dir.files, outputs[i]))
               <==> NamesTellApart(cat.artifactName, version, plan.targets))
  {
    plan, outputs := ReleasePlan([], [], 0), [];
    built := ValidateCatalog(cat, nameOk, repositoryOk);
    if !built { return false, built, plan, outputs; }
    AcceptedIsValid(cat, nameOk, repositoryOk);
    built, plan, outputs := LockRelease(cat, version, tagOk, resolve, digestOk);
    if Plannable(cat, version, tagOk) { AcceptedTags(cat, version, plan, nameOk, repositoryOk); }
    if !built { return false, built, plan, outputs; }
    ok := dir.WriteLocks(outputs, f);
    if ok { AllPublishedIffNamesTellApart(cat, version, plan, outputs, resolve, digestOk, old(dir.files)); }
  }

  // ---------------------------------------------------------------- a catalog that loses a lock

  /** One image, two profiles, two platforms, no exclusion. */
  function CollidingCatalog(): ImageCatalog {
    ImageCatalog(
      CATALOG_API_VERSION, "release", "release", "registry.example/release", ["image"],
      [Profile("edge", VERSION_PLACEHOLDER), Profile("edge-a", VERSION_PLACEHOLDER)],
      [Platform("a-b", "c"), Platform("b", "c")], [])
  }

  lemma PlaceholderOccursOnce()
    ensures Occurrences(VERSION_PLACEHOLDER, VERSION_PLACEHOLDER) == 1
  {
    assert VERSION_PLACEHOLDER <= VERSION_PLACEHOLDER;
    assert Index(VERSION_PLACEHOLDER, VERSION_PLACEHOLDER) == 0;
    assert VERSION_PLACEHOLDER[|VERSION_PLACEHOLDER|..] == "";
  }

  /** It is accepted and has a plan whenever its names and tags pass, and then two of its targets
      share a file, so that publishing its release loses a lock. */
  lemma AcceptedReleaseCanLoseLock(
    version: string, nameOk: string -> bool, repositoryOk: string -> bool, tagOk: string -> bool, plan: ReleasePlan)
    requires nameOk("release") && nameOk("image") && nameOk("edge") && nameOk("edge-a")
    requires repositoryOk("registry.example/release")
    requires AllTagsOk(CollidingCatalog(), version, tagOk, 2)
    requires IsPlan(CollidingCatalog(), version, plan)
    ensures Accepted(CollidingCatalog(), nameOk, repositoryOk)
    ensures Plannable(CollidingCatalog(), version, tagOk)
    ensures !NamesTellApart("release", version, plan.targets)
  {
    CollidingCatalogAccepted(nameOk, repositoryOk);
    UnexcludedIsPlannable(CollidingCatalog(), version, tagOk, nameOk, repositoryOk);
    TargetsCollide(version, plan);
  }

  lemma CollidingCatalogAccepted(nameOk: string -> bool, repositoryOk: string -> bool)
    requires nameOk("release") && nameOk("image") && nameOk("edge") && nameOk("edge-a")
    requires repositoryOk("registry.example/release")
    ensures Accepted(CollidingCatalog(), nameOk, repositoryOk)
  {
    PlaceholderOccursOnce();
    assert ProfileNames(CollidingCatalog().profiles) == ["edge", "edge-a"];
  }

  lemma TargetsCollide(version: string, plan: ReleasePlan)
    requires IsPlan(CollidingCatalog(), version, plan)
    ensures !NamesTellApart("release", version, plan.targets)
  {
    var cat := CollidingCatalog();
    var g, h := Target("edge", Platform("a-b", "c")), Target("edge-a", Platform("b", "c"));
    assert g.profile == ProfileNames(cat.profiles)[0] && h.profile == ProfileNames(cat.profiles)[1];
    assert g.platform == cat.platforms[0] && h.platform == cat.platforms[1];
    assert g in plan.targets && h in plan.targets;
    FileNamesCanCollide("release", version);
  }

  /** Without exclusions an accepted catalog has a plan exactly when its tags are valid. */
  lemma UnexcludedIsPlannable(
    cat: ImageCatalog, version: string, tagOk: string -> bool, nameOk: string -> bool, repositoryOk: string -> bool)
    requires Accepted(cat, nameOk, repositoryOk) && cat.exclude == []
    ensures Plannable(cat, version, tagOk) <==> AllTagsOk(cat, version, tagOk, |cat.profiles|)
  {
    AcceptedPlannable(cat, version, tagOk, nameOk, repositoryOk);
    AcceptedIsValid(cat, nameOk, repositoryOk);
    NothingExcluded(cat, Product(cat));
    assert |cat.images| > 0 && |ProfileNames(cat.profiles)| > 0 && |cat.platforms| > 0;
    forall b | 0 <= b < |cat.images| ensures Mentions(Product(cat), cat.images[b]) {
      var i := Visited(cat, 0, b, 0);
    }
    forall a | 0 <= a < |cat.profiles| ensures RowPopulated(cat, Product(cat), a) {
      forall c | 0 <= c < |cat.platforms|
        ensures Populated(Product(cat), Target(cat.profiles[a].name, cat.platforms[c]))
      {
        var i := Visited(cat, a, 0, c);
      }
    }
  }

  lemma {:induction false} NothingExcluded(cat: ImageCatalog, ts: seq<Triple>)
    requires cat.exclude == []
    ensures Kept(cat, ts) == ts && NoOverlap(cat, ts)
  {
    if ts != [] {
      NothingExcluded(cat, ts[..|ts| - 1]);
      assert ts == ts[..|ts| - 1] + [ts[|ts| - 1]];
    }
  }
}
