/** What the locks of a release hold together: exactly the planned combinations
    (hack/imagelock/main.go). */
module LockPartition {
  import opened Text
  import opened Sorting
  import opened Catalog
  import opened ReleasePlans
  import opened Locks

  /** The combinations that the entries of a target's lock stand for. */
  function TriplesOf(g: Target, images: seq<LockedImage>): seq<Triple> {
    seq(|images|, i requires 0 <= i < |images| => Triple(g.profile, images[i].name, g.platform))
  }

  function AllTriples(locks: seq<ImageLock>): seq<Triple> {
    if locks == [] then []
    else
      var last := locks[|locks| - 1];
      AllTriples(locks[..|locks| - 1]) + TriplesOf(Target(last.profile, last.platform), last.images)
  }

  /** The resolver answered with exactly the requested platforms. */
  ghost predicate Exact(images: seq<PlannedImage>, resolved: seq<ResolvedImage>) {
    |resolved| == |images| && forall i :: 0 <= i < |images| ==> ExactAt(images[i], resolved[i])
  }

  ghost predicate ExactAt(im: PlannedImage, r: ResolvedImage) {
    r.profile == im.profile && r.name == im.name && forall p :: p in r.digests <==> p in im.platforms
  }

  // ---------------------------------------------------------------- sorting keeps the combinations

  lemma TriplesConcat(g: Target, a: seq<LockedImage>, b: seq<LockedImage>)
    ensures TriplesOf(g, a + b) == TriplesOf(g, a) + TriplesOf(g, b)
  {
  }

  lemma {:induction false} PermutedTriples(g: Target, a: seq<LockedImage>, b: seq<LockedImage>)
    requires multiset(a) == multiset(b)
    ensures multiset(TriplesOf(g, a)) == multiset(TriplesOf(g, b))
    decreases |a|
  {
    assert |multiset(a)| == |multiset(b)|;
    if a != [] {
      var n := |a| - 1;
      WithoutLast(a);
      assert a[n] in multiset(b);
      var i :| 0 <= i < |b| && b[i] == a[n];
      TakeOut(b, i);
      PermutedTriples(g, a[..n], b[..i] + b[i + 1..]);
      TriplesConcat(g, a[..n], [a[n]]);
      TriplesConcat(g, b[..i], b[i + 1..]);
      TriplesConcat(g, b[..i], [b[i]]);
      TriplesConcat(g, b[..i] + [b[i]], b[i + 1..]);
    }
  }

  lemma TakeOut<T>(b: seq<T>, i: nat)
    requires i < |b|
    ensures b == b[..i] + [b[i]] + b[i + 1..]
    ensures multiset(b[..i] + b[i + 1..]) == multiset(b) - multiset{b[i]}
  {
    assert b == b[..i] + [b[i]] + b[i + 1..];
  }

  // ---------------------------------------------------------------- one lock

  predicate Identifies(im: ResolvedImage, t: Triple) { im.profile == t.profile && im.name == t.image }

  predicate ResolvedOnce(resolved: seq<ResolvedImage>) {
    forall i, j :: 0 <= i < j < |resolved| ==>
        (resolved[i].profile, resolved[i].name) != (resolved[j].profile, resolved[j].name)
  }

  /** How often a combination occurs in the lock of a target. */
  ghost function InLock(resolved: seq<ResolvedImage>, g: Target, t: Triple): nat {
    multiset(TriplesOf(g, Entries(resolved, g)))[t]
  }

  lemma TriplesStep(g: Target, images: seq<LockedImage>, x: LockedImage, t: Triple)
    ensures multiset(TriplesOf(g, images + [x]))[t]
            == multiset(TriplesOf(g, images))[t] + if Triple(g.profile, x.name, g.platform) == t then 1 else 0
  {
    TriplesConcat(g, images, [x]);
    assert TriplesOf(g, [x]) == [Triple(g.profile, x.name, g.platform)];
  }

  lemma EntriesStep(resolved: seq<ResolvedImage>, g: Target, t: Triple)
    requires resolved != []
    ensures var n := |resolved| - 1;
            InLock(resolved, g, t) == InLock(resolved[..n], g, t)
              + if Includes(resolved[n], g) && Triple(g.profile, resolved[n].name, g.platform) == t then 1 else 0
  {
    var n := |resolved| - 1;
    var front := Entries(resolved[..n], g);
    if Includes(resolved[n], g) {
      assert Entries(resolved, g) == front + [Locked(resolved[n], g)];
      TriplesStep(g, front, Locked(resolved[n], g), t);
    } else {
      assert Entries(resolved, g) == front;
    }
  }

  lemma {:induction false} AbsentFromLock(resolved: seq<ResolvedImage>, g: Target, t: Triple)
    requires forall i :: 0 <= i < |resolved| ==> !Identifies(resolved[i], t)
    ensures InLock(resolved, g, t) == 0
  {
    if resolved != [] {
      AbsentFromLock(resolved[..|resolved| - 1], g, t);
      EntriesStep(resolved, g, t);
    }
  }

  lemma {:induction false} PresentInLock(resolved: seq<ResolvedImage>, i: nat, g: Target, t: Triple)
    requires ResolvedOnce(resolved) && i < |resolved| && Identifies(resolved[i], t)
    ensures InLock(resolved, g, t) == if g == Target(t.profile, t.platform) && g.platform in resolved[i].digests then 1
              else 0
  {
    var n := |resolved| - 1;
    EntriesStep(resolved, g, t);
    if i < n {
      PresentInLock(resolved[..n], i, g, t);
    } else {
      AbsentFromLock(resolved[..n], g, t);
    }
  }

  /** A target's lock holds the planned combinations of that target. */
  lemma LockCountsPlan(cat: ImageCatalog, version: string, plan: ReleasePlan, resolved: seq<ResolvedImage>, g: Target,
      t: Triple)
    requires Valid(cat) && IsPlan(cat, version, plan) && Exact(plan.images, resolved)
    ensures InLock(resolved, g, t) == if g == Target(t.profile, t.platform) then multiset(PlanTriples(plan.images))[t]
              else 0
  {
    if i :| 0 <= i < |plan.images| && Names(plan.images[i], t) {
      ResolvedAsPlanned(plan.images, resolved);
      assert ExactAt(plan.images[i], resolved[i]);
      NamedTriple(plan.images, i, t);
      PresentInLock(resolved, i, g, t);
      PlanIsProductMinusExclusions(cat, version, plan, t);
      assert t.platform in plan.images[i].platforms <==> t.platform in multiset(plan.images[i].platforms);
    } else {
      UnnamedCount(plan.images, t);
      forall i | 0 <= i < |resolved|
        ensures !Identifies(resolved[i], t)
      {
        assert ExactAt(plan.images[i], resolved[i]);
      }
      AbsentFromLock(resolved, g, t);
    }
  }

  lemma ResolvedAsPlanned(images: seq<PlannedImage>, resolved: seq<ResolvedImage>)
    requires PlansOnce(images) && Exact(images, resolved)
    ensures ResolvedOnce(resolved)
  {
    forall i, j | 0 <= i < j < |resolved|
      ensures (resolved[i].profile, resolved[i].name) != (resolved[j].profile, resolved[j].name)
    {
      assert ExactAt(images[i], resolved[i]) && ExactAt(images[j], resolved[j]);
      assert ImageKey(images[i]) != ImageKey(images[j]);
    }
  }

  /** No lock names an image twice, so each is strictly sorted. */
  lemma LockAscends(cat: ImageCatalog, version: string, plan: ReleasePlan, resolved: seq<ResolvedImage>, name: string,
      g: Target, lock: ImageLock)
    requires Valid(cat) && IsPlan(cat, version, plan) && Exact(plan.images, resolved)
    requires IsLock(lock, name, version, g, resolved)
    ensures Ascending(lock.images, NameKey)
  {
    var triples := TriplesOf(g, lock.images);
    PermutedTriples(g, lock.images, Entries(resolved, g));
    forall t | t in multiset(triples) ensures multiset(triples)[t] == 1 {
      LockCountsPlan(cat, version, plan, resolved, g, t);
      PlanIsProductMinusExclusions(cat, version, plan, t);
    }
    NoDuplicatesCount(triples);
    forall i, j | 0 <= i < j < |lock.images| ensures NameKey(lock.images[i]) != NameKey(lock.images[j]) {
      assert triples[i] != triples[j];
    }
    SortedAscends(lock.images, NameKey);
  }

  // ---------------------------------------------------------------- all locks

  lemma {:induction false} FirstLocks(
    targets: seq<Target>, resolved: seq<ResolvedImage>, name: string, version: string, locks: seq<ImageLock>, k: nat,
        t: Triple)
    requires NoDuplicates(targets) && AreLocks(locks, name, version, targets, resolved) && k <= |locks|
    requires forall g: Target :: g != Target(t.profile, t.platform) ==> InLock(resolved, g, t) == 0
    ensures multiset(AllTriples(locks[..k]))[t] ==
            if Target(t.profile, t.platform) in targets[..k] then InLock(resolved, Target(t.profile, t.platform), t)
            else 0
  {
    if k > 0 {
      FirstLocks(targets, resolved, name, version, locks, k - 1, t);
      LockAt(locks, name, version, targets, resolved, k - 1);
      LockTriples(locks, k, name, version, targets[k - 1], resolved);
      TakeOneMore(targets, k);
    }
  }

  lemma TakeOneMore(targets: seq<Target>, k: nat)
    requires 0 < k <= |targets| && NoDuplicates(targets)
    ensures targets[..k] == targets[..k - 1] + [targets[k - 1]] && targets[k - 1] !in targets[..k - 1]
  {
  }

  lemma LockTriples(locks: seq<ImageLock>, k: nat, name: string, version: string, g: Target,
      resolved: seq<ResolvedImage>)
    requires 0 < k <= |locks| && IsLock(locks[k - 1], name, version, g, resolved)
    ensures multiset(AllTriples(locks[..k]))
            == multiset(AllTriples(locks[..k - 1])) + multiset(TriplesOf(g, Entries(resolved, g)))
  {
    PermutedTriples(g, locks[k - 1].images, Entries(resolved, g));
    assert locks[..k][..k - 1] == locks[..k - 1];
  }

  /** The locks partition the plan: every planned combination is in exactly one lock, once, and
      nothing else is in any. */
  lemma LocksPartitionPlan(
    cat: ImageCatalog, version: string, plan: ReleasePlan, resolved: seq<ResolvedImage>, name: string,
        locks: seq<ImageLock>)
    requires Valid(cat) && IsPlan(cat, version, plan) && Exact(plan.images, resolved)
    requires AreLocks(locks, name, version, plan.targets, resolved)
    ensures multiset(AllTriples(locks)) == multiset(PlanTriples(plan.images))
    ensures |AllTriples(locks)| == plan.combinations
  {
    forall t: Triple ensures multiset(AllTriples(locks))[t] == multiset(PlanTriples(plan.images))[t] {
      LocksHoldTriple(cat, version, plan, resolved, name, locks, t);
    }
    assert multiset(AllTriples(locks)) == multiset(PlanTriples(plan.images));
    PlanSize(cat, version, plan);
    assert |multiset(AllTriples(locks))| == |multiset(PlanTriples(plan.images))|;
  }

  lemma LocksHoldTriple(
    cat: ImageCatalog, version: string, plan: ReleasePlan, resolved: seq<ResolvedImage>, name: string,
        locks: seq<ImageLock>, t: Triple)
    requires Valid(cat) && IsPlan(cat, version, plan) && Exact(plan.images, resolved)
    requires AreLocks(locks, name, version, plan.targets, resolved)
    ensures multiset(AllTriples(locks))[t] == multiset(PlanTriples(plan.images))[t]
  {
    forall g: Target
      ensures InLock(resolved, g, t) == if g == Target(t.profile, t.platform)
                then multiset(PlanTriples(plan.images))[t] else 0
    {
      LockCountsPlan(cat, version, plan, resolved, g, t);
    }
    FirstLocks(plan.targets, resolved, name, version, locks, |locks|, t);
    assert locks[..|locks|] == locks && plan.targets[..|locks|] == plan.targets;
    PlanIsProductMinusExclusions(cat, version, plan, t);
  }

  lemma PlanSize(cat: ImageCatalog, version: string, plan: ReleasePlan)
    requires Valid(cat) && IsPlan(cat, version, plan)
    ensures |PlanTriples(plan.images)| == plan.combinations
  {
    PlanIsProductMinusExclusions(cat, version, plan, Triple("", "", Platform("", "")));
  }

  /** Every target of a plan has an image to lock. */
  lemma NoLockIsEmpty(cat: ImageCatalog, version: string, tagOk: string -> bool, plan: ReleasePlan,
      resolved: seq<ResolvedImage>, g: Target)
    requires Valid(cat) && Plannable(cat, version, tagOk) && IsPlan(cat, version, plan) && Exact(plan.images, resolved)
    requires g in plan.targets
    ensures Entries(resolved, g) != []
  {
    var kept := Kept(cat, Product(cat));
    var a :| 0 <= a < |cat.profiles| && ProfileNames(cat.profiles)[a] == g.profile;
    var c :| 0 <= c < |cat.platforms| && cat.platforms[c] == g.platform;
    assert RowPopulated(cat, kept, a);
    assert Populated(kept, Target(cat.profiles[a].name, cat.platforms[c]));
    var i :| 0 <= i < |kept| && Target(kept[i].profile, kept[i].platform) == g;
    assert kept[i] in multiset(kept);
    PlanHoldsKept(cat, version, plan);
    LockCountsPlan(cat, version, plan, resolved, g, kept[i]);
  }

  lemma NoLocksEmpty(cat: ImageCatalog, version: string, tagOk: string -> bool, plan: ReleasePlan,
      resolved: seq<ResolvedImage>)
    requires Valid(cat) && Plannable(cat, version, tagOk) && IsPlan(cat, version, plan) && Exact(plan.images, resolved)
    ensures AllFilled(plan.targets, resolved)
  {
    forall i | 0 <= i < |plan.targets| ensures Entries(resolved, plan.targets[i]) != [] {
      NoLockIsEmpty(cat, version, tagOk, plan, resolved, plan.targets[i]);
    }
    AllFilledMeans(plan.targets, resolved);
  }

  lemma LocksAscend(cat: ImageCatalog, version: string, plan: ReleasePlan, resolved: seq<ResolvedImage>, name: string,
      locks: seq<ImageLock>)
    requires Valid(cat) && IsPlan(cat, version, plan) && Exact(plan.images, resolved)
    requires AreLocks(locks, name, version, plan.targets, resolved)
    requires AllFilled(plan.targets, resolved)
    ensures forall i :: 0 <= i < |locks| ==> locks[i].images != [] && Ascending(locks[i].images, NameKey)
  {
    AllFilledMeans(plan.targets, resolved);
    forall i | 0 <= i < |locks| ensures locks[i].images != [] && Ascending(locks[i].images, NameKey) {
      LockAt(locks, name, version, plan.targets, resolved, i);
      LockAscends(cat, version, plan, resolved, name, plan.targets[i], locks[i]);
      assert |multiset(locks[i].images)| == |multiset(Entries(resolved, plan.targets[i]))|;
    }
  }
}
