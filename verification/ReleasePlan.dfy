/** The release plan the visited combinations give, and what it contains
    (hack/imagelock/catalog.go). */
module ReleasePlans {
  import opened Sorting
  import opened Catalog

  predicate Populated(ts: seq<Triple>, g: Target) {
    exists i :: 0 <= i < |ts| && Target(ts[i].profile, ts[i].platform) == g
  }

  predicate Mentions(ts: seq<Triple>, name: string) { exists i :: 0 <= i < |ts| && ts[i].image == name }

  predicate Hits(e: Exclusion, ts: seq<Triple>) { exists i :: 0 <= i < |ts| && Excludes(e, ts[i]) }

  /** Exactly when a catalog has a release plan. */
  predicate Plannable(cat: ImageCatalog, version: string, tagOk: string -> bool) {
    && AllTagsOk(cat, version, tagOk, |cat.profiles|)
    && NoOverlap(cat, Product(cat))
    && (forall e :: 0 <= e < |cat.exclude| ==> Hits(cat.exclude[e], Product(cat)))
    && (forall b :: 0 <= b < |cat.images| ==> Mentions(Kept(cat, Product(cat)), cat.images[b]))
    && (forall a :: 0 <= a < |cat.profiles| ==> RowPopulated(cat, Kept(cat, Product(cat)), a))
  }

  /** Every platform of a profile keeps some image. */
  predicate RowPopulated(cat: ImageCatalog, kept: seq<Triple>, a: nat)
    requires a < |cat.profiles|
  {
    forall c :: 0 <= c < |cat.platforms| ==> Populated(kept, Target(cat.profiles[a].name, cat.platforms[c]))
  }

  function TargetKey(g: Target): (string, string) { (g.profile, PlatformString(g.platform)) }

  function ImageKey(im: PlannedImage): (string, string) { (im.profile, im.name) }

  /** What a plan says: every profile and platform is a target, the images are the profile-image
      pairs with the platforms kept for them, each pair once, and both lists are sorted. */
  ghost predicate IsPlan(cat: ImageCatalog, version: string, plan: ReleasePlan) {
    var kept := Kept(cat, Product(cat));
    && plan.combinations == |kept|
    && Sorted(plan.targets, ByPair(TargetKey)) && NoDuplicates(plan.targets)
    && (forall g :: g in plan.targets <==> g.profile in ProfileNames(cat.profiles) && g.platform in cat.platforms)
    && Sorted(plan.images, ByPair(ImageKey)) && PlansOnce(plan.images)
    && (forall im :: im in plan.images ==>
          Describes(cat, version, ImageKey(im), im) && im.platforms == PlatformsFor(kept, ImageKey(im)) != [])
    && (forall k :: PlatformsFor(kept, k) != [] ==> exists im :: im in plan.images && ImageKey(im) == k)
  }

  /** Every image carries the tag its profile's template gives for the version. */
  ghost predicate AllTagged(cat: ImageCatalog, version: string, plan: ReleasePlan) {
    forall im :: im in plan.images ==> TaggedByProfile(cat, version, im)
  }

  predicate PlansOnce(images: seq<PlannedImage>) {
    forall i, j :: 0 <= i < j < |images| ==> ImageKey(images[i]) != ImageKey(images[j])
  }

  // ---------------------------------------------------------------- the closing checks

  /** Every exclusion matched something. */
  method AllMatched(matched: seq<nat>) returns (ok: bool)
    ensures ok <==> forall e :: 0 <= e < |matched| ==> matched[e] > 0
  {
    for e := 0 to |matched|
      invariant forall i :: 0 <= i < e ==> matched[i] > 0
    {
      if matched[e] == 0 { return false; }
    }
    ok := true;
  }

  /** Every image is left in some combination. */
  method AllImagesKept(images: seq<string>, counts: map<string, nat>) returns (ok: bool)
    ensures ok <==> forall b :: 0 <= b < |images| ==> Count(counts, images[b]) > 0
  {
    for b := 0 to |images|
      invariant forall i :: 0 <= i < b ==> Count(counts, images[i]) > 0
    {
      if Count(counts, images[b]) == 0 { return false; }
    }
    ok := true;
  }

  function TargetRow(cat: ImageCatalog, a: nat, c: nat): seq<Target>
    requires a < |cat.profiles| && c <= |cat.platforms|
  {
    seq(c, k requires 0 <= k < c => Target(cat.profiles[a].name, cat.platforms[k]))
  }

  function TargetBlock(cat: ImageCatalog, a: nat): seq<Target>
    requires a <= |cat.profiles|
  {
    if a == 0 then [] else TargetBlock(cat, a - 1) + TargetRow(cat, a - 1, |cat.platforms|)
  }

  predicate RowFilled(cat: ImageCatalog, counts: map<Target, nat>, a: nat)
    requires a < |cat.profiles|
  {
    forall c :: 0 <= c < |cat.platforms| ==> Count(counts, Target(cat.profiles[a].name, cat.platforms[c])) > 0
  }

  method ListRow(cat: ImageCatalog, counts: map<Target, nat>, a: nat) returns (ok: bool, targets: seq<Target>)
    requires a < |cat.profiles|
    ensures ok <==> RowFilled(cat, counts, a)
    ensures ok ==> targets == TargetRow(cat, a, |cat.platforms|)
  {
    targets := [];
    for c := 0 to |cat.platforms|
      invariant targets == TargetRow(cat, a, c)
      invariant forall i :: 0 <= i < c ==> Count(counts, Target(cat.profiles[a].name, cat.platforms[i])) > 0
    {
      var target := Target(cat.profiles[a].name, cat.platforms[c]);
      if Count(counts, target) == 0 { return false, targets; }
      targets := targets + [target];
    }
    ok := true;
  }

  method ListTargets(cat: ImageCatalog, counts: map<Target, nat>) returns (ok: bool, targets: seq<Target>)
    ensures ok <==> forall a :: 0 <= a < |cat.profiles| ==> RowFilled(cat, counts, a)
    ensures ok ==> targets == TargetBlock(cat, |cat.profiles|)
  {
    targets := [];
    for a := 0 to |cat.profiles|
      invariant targets == TargetBlock(cat, a)
      invariant forall i :: 0 <= i < a ==> RowFilled(cat, counts, i)
    {
      var row;
      ok, row := ListRow(cat, counts, a);
      if !ok { return; }
      targets := targets + row;
    }
    ok := true;
  }

  /** A list of the values of a map keyed by profile and image, in any order. */
  ghost predicate Lists(planned: map<(string, string), PlannedImage>, images: seq<PlannedImage>) {
    && NoDuplicates(images)
    && (forall im :: im in images ==> ImageKey(im) in planned && planned[ImageKey(im)] == im)
    && (forall k :: k in planned ==> planned[k] in images)
  }

  method ListImages(planned: map<(string, string), PlannedImage>) returns (images: seq<PlannedImage>)
    requires forall k :: k in planned ==> ImageKey(planned[k]) == k
    ensures Lists(planned, images)
  {
    images := [];
    var pending := planned.Keys;
    while pending != {}
      invariant pending <= planned.Keys && NoDuplicates(images)
      invariant forall im :: im in images ==> ImageKey(im) in planned.Keys - pending && planned[ImageKey(im)] == im
      invariant forall k :: k in planned && k !in pending ==> planned[k] in images
      decreases pending
    {
      var k :| k in pending;
      pending := pending - {k};
      assert planned[k] !in images;
      images := images + [planned[k]];
    }
  }

  // ---------------------------------------------------------------- what the counts say

  lemma {:induction false} MatchedIffHits(e: Exclusion, ts: seq<Triple>)
    ensures MatchCount(e, ts) > 0 <==> Hits(e, ts)
  {
    if ts != [] {
      var front := ts[..|ts| - 1];
      MatchedIffHits(e, front);
      assert forall i :: 0 <= i < |front| ==> front[i] == ts[i];
      if Hits(e, ts) && !Excludes(e, ts[|ts| - 1]) {
        var i :| 0 <= i < |ts| && Excludes(e, ts[i]);
        assert Excludes(e, front[i]);
      }
    }
  }

  lemma {:induction false} CountedIffPopulated(ts: seq<Triple>, g: Target)
    ensures TargetCount(ts, g) > 0 <==> Populated(ts, g)
  {
    if ts != [] {
      var front := ts[..|ts| - 1];
      CountedIffPopulated(front, g);
      assert forall i :: 0 <= i < |front| ==> front[i] == ts[i];
      if Populated(ts, g) && Target(ts[|ts| - 1].profile, ts[|ts| - 1].platform) != g {
        var i :| 0 <= i < |ts| && Target(ts[i].profile, ts[i].platform) == g;
        assert Target(front[i].profile, front[i].platform) == g;
      }
    }
  }

  lemma {:induction false} CountedIffMentioned(ts: seq<Triple>, name: string)
    ensures ImageCount(ts, name) > 0 <==> Mentions(ts, name)
  {
    if ts != [] {
      var front := ts[..|ts| - 1];
      CountedIffMentioned(front, name);
      assert forall i :: 0 <= i < |front| ==> front[i] == ts[i];
      if Mentions(ts, name) && ts[|ts| - 1].image != name {
        var i :| 0 <= i < |ts| && ts[i].image == name;
        assert front[i].image == name;
      }
    }
  }

  lemma {:induction false} TargetsAreTheGrid(cat: ImageCatalog, a: nat, g: Target)
    requires a <= |cat.profiles| && Valid(cat)
    ensures multiset(TargetBlock(cat, a))[g] == if g.profile in ProfileNames(cat.profiles[..a])
            && g.platform in cat.platforms then 1 else 0
  {
    if a > 0 {
      TargetsAreTheGrid(cat, a - 1, g);
      var row := TargetRow(cat, a - 1, |cat.platforms|);
      PlatformsOnce(cat);
      assert NoDuplicates(row);
      NoDuplicatesCount(row);
      ProfileIsNew(cat.profiles, a, g.profile);
      assert g in row <==> g.profile == cat.profiles[a - 1].name && g.platform in cat.platforms by {
        if g.platform in cat.platforms && g.profile == cat.profiles[a - 1].name {
          var c :| 0 <= c < |cat.platforms| && cat.platforms[c] == g.platform;
          assert row[c] == g;
        }
      }
      assert g in row <==> g in multiset(row);
    }
  }

  /** The names before position a, and the one at it. */
  lemma ProfileIsNew(profiles: seq<Profile>, a: nat, name: string)
    requires 0 < a <= |profiles| && NoDuplicates(ProfileNames(profiles))
    ensures name in ProfileNames(profiles[..a]) <==>
            name in ProfileNames(profiles[..a - 1]) || name == profiles[a - 1].name
    ensures !(name in ProfileNames(profiles[..a - 1]) && name == profiles[a - 1].name)
  {
    assert profiles[..a] == profiles[..a - 1] + [profiles[a - 1]];
    var before := ProfileNames(profiles[..a - 1]);
    assert ProfileNames(profiles[..a]) == before + [profiles[a - 1].name];
    assert forall i :: 0 <= i < a - 1 ==> before[i] == ProfileNames(profiles)[i];
    assert ProfileNames(profiles)[a - 1] == profiles[a - 1].name;
  }

  lemma AllTargetsOnce(cat: ImageCatalog)
    requires Valid(cat)
    ensures NoDuplicates(TargetBlock(cat, |cat.profiles|))
    ensures forall g :: g in TargetBlock(cat, |cat.profiles|) <==>
            g.profile in ProfileNames(cat.profiles) && g.platform in cat.platforms
  {
    var all := TargetBlock(cat, |cat.profiles|);
    assert cat.profiles[..|cat.profiles|] == cat.profiles;
    forall g: Target ensures g in multiset(all) ==> multiset(all)[g] == 1
                     ensures g in all <==> g.profile in ProfileNames(cat.profiles) && g.platform in cat.platforms
    {
      TargetsAreTheGrid(cat, |cat.profiles|, g);
      assert g in all <==> g in multiset(all);
    }
    NoDuplicatesCount(all);
  }

  // ---------------------------------------------------------------- the planner

  /** The closing checks pass exactly on a plannable catalog whose combinations were all visited. */
  lemma ChecksMean(cat: ImageCatalog, version: string, tagOk: string -> bool, y: Tally)
    requires AllTagsOk(cat, version, tagOk, |cat.profiles|) && NoOverlap(cat, Product(cat))
    requires TallyIs(cat, version, y, Product(cat))
    ensures Plannable(cat, version, tagOk) <==>
            && (forall e :: 0 <= e < |y.matched| ==> y.matched[e] > 0)
            && (forall b :: 0 <= b < |cat.images| ==> Count(y.images, cat.images[b]) > 0)
            && (forall a :: 0 <= a < |cat.profiles| ==> RowFilled(cat, y.targets, a))
  {
    var kept := Kept(cat, Product(cat));
    forall e | 0 <= e < |cat.exclude|
      ensures y.matched[e] > 0 <==> Hits(cat.exclude[e], Product(cat))
    {
      MatchedIffHits(cat.exclude[e], Product(cat));
    }
    forall n ensures Count(y.images, n) > 0 <==> Mentions(kept, n) { CountedIffMentioned(kept, n); }
    forall g ensures Count(y.targets, g) > 0 <==> Populated(kept, g) { CountedIffPopulated(kept, g); }
    forall a | 0 <= a < |cat.profiles| ensures RowFilled(cat, y.targets, a) <==> RowPopulated(cat, kept, a) {
      assert forall c :: 0 <= c < |cat.platforms| ==>
          (Count(y.targets, Target(cat.profiles[a].name, cat.platforms[c])) > 0 <==>
              Populated(kept, Target(cat.profiles[a].name, cat.platforms[c])));
    }
  }

  lemma SortedPlan(cat: ImageCatalog, version: string, y: Tally, images: seq<PlannedImage>, plan: ReleasePlan)
    requires Valid(cat) && TallyIs(cat, version, y, Product(cat)) && Lists(y.planned, images)
    requires plan
             == ReleasePlan(Sort(TargetBlock(cat, |cat.profiles|), ByPair(TargetKey)), Sort(images, ByPair(ImageKey)),
                 y.combinations)
    ensures IsPlan(cat, version, plan)
  {
    AllTargetsOnce(cat);
    SortedTargets(TargetBlock(cat, |cat.profiles|));
    SortedImages(y.planned, images);
    forall k | PlatformsFor(Kept(cat, Product(cat)), k) != []
      ensures exists im :: im in plan.images && ImageKey(im) == k
    {
      assert k in y.planned && y.planned[k] in plan.images && ImageKey(y.planned[k]) == k;
    }
  }

  lemma SortedTargets(targets: seq<Target>)
    requires NoDuplicates(targets)
    ensures var s := Sort(targets, ByPair(TargetKey));
            Sorted(s, ByPair(TargetKey)) && NoDuplicates(s) && forall g :: g in s <==> g in targets
  {
    ByPairIsStrict(TargetKey);
    SortSorts(targets, ByPair(TargetKey));
    PermutationKeepsDistinct(targets, Sort(targets, ByPair(TargetKey)));
  }

  lemma SortedImages(planned: map<(string, string), PlannedImage>, images: seq<PlannedImage>)
    requires Lists(planned, images)
    ensures var s := Sort(images, ByPair(ImageKey)); Sorted(s, ByPair(ImageKey)) && Lists(planned, s) && PlansOnce(s)
  {
    ByPairIsStrict(ImageKey);
    SortSorts(images, ByPair(ImageKey));
    PermutationKeepsDistinct(images, Sort(images, ByPair(ImageKey)));
    ListsOnce(planned, Sort(images, ByPair(ImageKey)));
  }

  lemma ListsOnce(planned: map<(string, string), PlannedImage>, images: seq<PlannedImage>)
    requires Lists(planned, images)
    ensures PlansOnce(images)
  {
    forall i, j | 0 <= i < j < |images|
      ensures ImageKey(images[i]) != ImageKey(images[j])
    {
      assert images[i] in images && images[j] in images;
    }
  }

  /** A plan exists exactly for a plannable catalog, and then it is the one described. */
  method BuildReleasePlan(cat: ImageCatalog, version: string, tagOk: string -> bool)
    returns (ok: bool, plan: ReleasePlan)
    requires Valid(cat)
    ensures ok <==> Plannable(cat, version, tagOk)
    ensures ok ==> IsPlan(cat, version, plan) && AllTagged(cat, version, plan)
  {
    plan := ReleasePlan([], [], 0);
    var y;
    ok, y := VisitAll(cat, version, tagOk);
    if !ok { return; }
    TallyMeans(cat, version, Product(cat));
    ChecksMean(cat, version, tagOk, y);
    ok := AllMatched(y.matched);
    if !ok { return; }
    ok := AllImagesKept(cat.images, y.images);
    if !ok { return; }
    var targets;
    ok, targets := ListTargets(cat, y.targets);
    if !ok { return; }
    var images := ListImages(y.planned);
    plan := ReleasePlan(Sort(targets, ByPair(TargetKey)), Sort(images, ByPair(ImageKey)), y.combinations);
    SortedPlan(cat, version, y, images, plan);
    PlanIsTagged(cat, version, plan);
  }

  // ---------------------------------------------------------------- what a plan contains

  predicate InProduct(cat: ImageCatalog, t: Triple) {
    t.profile in ProfileNames(cat.profiles) && t.image in cat.images && t.platform in cat.platforms
  }

  /** The combinations a plan stands for. */
  function PlanTriples(images: seq<PlannedImage>): seq<Triple> {
    if images == [] then [] else PlanTriples(images[..|images| - 1]) + ImageTriples(images[|images| - 1])
  }

  function ImageTriples(im: PlannedImage): seq<Triple> {
    seq(|im.platforms|, i requires 0 <= i < |im.platforms| => Triple(im.profile, im.name, im.platforms[i]))
  }

  lemma RowCount(cat: ImageCatalog, a: nat, b: nat, t: Triple)
    requires a < |cat.profiles| && b < |cat.images| && Valid(cat)
    ensures multiset(Row(cat, a, b, |cat.platforms|))[t] ==
            if t.profile == cat.profiles[a].name && t.image == cat.images[b] && t.platform in cat.platforms then 1
            else 0
  {
    var row := Row(cat, a, b, |cat.platforms|);
    PlatformsOnce(cat);
    assert NoDuplicates(row);
    NoDuplicatesCount(row);
    assert t in row <==> t in multiset(row);
    if t.platform in cat.platforms && t.profile == cat.profiles[a].name && t.image == cat.images[b] {
      var c :| 0 <= c < |cat.platforms| && cat.platforms[c] == t.platform;
      assert row[c] == t;
    }
  }

  lemma {:induction false} SlabCount(cat: ImageCatalog, a: nat, b: nat, t: Triple)
    requires a < |cat.profiles| && b <= |cat.images| && Valid(cat)
    ensures multiset(Slab(cat, a, b))[t] ==
            if t.profile == cat.profiles[a].name && t.image in cat.images[..b] && t.platform in cat.platforms then 1
            else 0
  {
    if b > 0 {
      SlabCount(cat, a, b - 1, t);
      RowCount(cat, a, b - 1, t);
      assert cat.images[..b] == cat.images[..b - 1] + [cat.images[b - 1]];
      assert cat.images[b - 1] !in cat.images[..b - 1];
    }
  }

  lemma {:induction false} BlockCount(cat: ImageCatalog, a: nat, t: Triple)
    requires a <= |cat.profiles| && Valid(cat)
    ensures multiset(Block(cat, a))[t] ==
            if t.profile in ProfileNames(cat.profiles[..a]) && t.image in cat.images && t.platform in cat.platforms
              then 1 else 0
  {
    if a > 0 {
      BlockCount(cat, a - 1, t);
      SlabCount(cat, a - 1, |cat.images|, t);
      assert cat.images[..|cat.images|] == cat.images;
      ProfileIsNew(cat.profiles, a, t.profile);
    }
  }

  lemma {:induction false} SlabSize(cat: ImageCatalog, a: nat, b: nat)
    requires a < |cat.profiles| && b <= |cat.images|
    ensures |Slab(cat, a, b)| == b * |cat.platforms|
  {
    if b > 0 { SlabSize(cat, a, b - 1); }
  }

  lemma {:induction false} BlockSize(cat: ImageCatalog, a: nat, n: nat)
    requires a <= |cat.profiles| && n == |cat.images| * |cat.platforms|
    ensures |Block(cat, a)| == a * n
  {
    if a > 0 {
      SlabSize(cat, a - 1, |cat.images|);
      BlockSize(cat, a - 1, n);
    }
  }

  /** The planner visits each combination once. */
  lemma ProductOnce(cat: ImageCatalog, t: Triple)
    requires Valid(cat)
    ensures multiset(Product(cat))[t] == if InProduct(cat, t) then 1 else 0
    ensures |Product(cat)| == |cat.profiles| * (|cat.images| * |cat.platforms|)
  {
    BlockCount(cat, |cat.profiles|, t);
    BlockSize(cat, |cat.profiles|, |cat.images| * |cat.platforms|);
    assert cat.profiles[..|cat.profiles|] == cat.profiles;
  }

  /** Where the planner visits a combination. */
  lemma Visited(cat: ImageCatalog, a: nat, b: nat, c: nat) returns (i: nat)
    requires Valid(cat) && a < |cat.profiles| && b < |cat.images| && c < |cat.platforms|
    ensures i < |Product(cat)| && Product(cat)[i] == Triple(cat.profiles[a].name, cat.images[b], cat.platforms[c])
  {
    var t := Triple(cat.profiles[a].name, cat.images[b], cat.platforms[c]);
    assert ProfileNames(cat.profiles)[a] == t.profile;
    ProductOnce(cat, t);
    assert t in multiset(Product(cat));
    i :| 0 <= i < |Product(cat)| && Product(cat)[i] == t;
  }

  lemma {:induction false} KeptOnce(cat: ImageCatalog, ts: seq<Triple>, t: Triple)
    ensures multiset(Kept(cat, ts))[t] == if Excluded(cat, t) then 0 else multiset(ts)[t]
    ensures |Kept(cat, ts)| + ExcludedCount(cat, ts) == |ts|
  {
    if ts != [] {
      assert ts == ts[..|ts| - 1] + [ts[|ts| - 1]];
      KeptOnce(cat, ts[..|ts| - 1], t);
    }
  }

  lemma {:induction false} PlatformsCount(ts: seq<Triple>, key: (string, string), p: Platform)
    ensures multiset(PlatformsFor(ts, key))[p] == multiset(ts)[Triple(key.0, key.1, p)]
  {
    if ts != [] {
      assert ts == ts[..|ts| - 1] + [ts[|ts| - 1]];
      PlatformsCount(ts[..|ts| - 1], key, p);
    }
  }

  lemma {:induction false} ImageTriplesCount(profile: string, name: string, im: PlannedImage, t: Triple)
    requires im.profile == profile && im.name == name
    ensures multiset(ImageTriples(im))[t] == if ImageKey(im) == (t.profile, t.image)
              then multiset(im.platforms)[t.platform] else 0
    decreases |im.platforms|
  {
    if im.platforms != [] {
      var n := |im.platforms| - 1;
      var front := im.(platforms := im.platforms[..n]);
      ImageTriplesCount(profile, name, front, t);
      assert im.platforms == front.platforms + [im.platforms[n]];
      assert ImageTriples(im) == ImageTriples(front) + [Triple(im.profile, im.name, im.platforms[n])];
    }
  }

  predicate Names(im: PlannedImage, t: Triple) { im.profile == t.profile && im.name == t.image }

  lemma PlanTriplesStep(images: seq<PlannedImage>, t: Triple)
    requires images != []
    ensures var last := images[|images| - 1];
            multiset(PlanTriples(images))[t] == multiset(PlanTriples(images[..|images| - 1]))[t]
              + if Names(last, t) then multiset(last.platforms)[t.platform] else 0
  {
    var last := images[|images| - 1];
    ImageTriplesCount(last.profile, last.name, last, t);
  }

  lemma {:induction false} UnnamedCount(images: seq<PlannedImage>, t: Triple)
    requires forall i :: 0 <= i < |images| ==> !Names(images[i], t)
    ensures multiset(PlanTriples(images))[t] == 0
  {
    if images != [] {
      UnnamedCount(images[..|images| - 1], t);
      PlanTriplesStep(images, t);
    }
  }

  /** A combination that one entry alone names is counted by that entry. */
  lemma {:induction false} NamedCount(images: seq<PlannedImage>, i: nat, t: Triple)
    requires i < |images| && forall j :: 0 <= j < |images| ==> (Names(images[j], t) <==> j == i)
    ensures multiset(PlanTriples(images))[t] == multiset(images[i].platforms)[t.platform]
  {
    PlanTriplesStep(images, t);
    if i < |images| - 1 { NamedCount(images[..|images| - 1], i, t); } else { UnnamedCount(images[..|images| - 1], t); }
  }

  lemma NamedOnce(images: seq<PlannedImage>, i: nat, t: Triple)
    requires PlansOnce(images) && i < |images| && Names(images[i], t)
    ensures forall j :: 0 <= j < |images| ==> (Names(images[j], t) <==> j == i)
  {
    forall j | 0 <= j < |images| && j != i ensures !Names(images[j], t) {
      assert if i < j then ImageKey(images[i]) != ImageKey(images[j]) else ImageKey(images[j]) != ImageKey(images[i]);
    }
  }

  lemma NamedTriple(images: seq<PlannedImage>, i: nat, t: Triple)
    requires PlansOnce(images) && i < |images| && Names(images[i], t)
    ensures multiset(PlanTriples(images))[t] == multiset(images[i].platforms)[t.platform]
  {
    NamedOnce(images, i, t);
    NamedCount(images, i, t);
  }

  /** The entries carry the platforms kept for their profile and image, and no kept pair is missing. */
  ghost predicate Carries(images: seq<PlannedImage>, kept: seq<Triple>) {
    && PlansOnce(images)
    && (forall i :: 0 <= i < |images| ==> images[i].platforms == PlatformsFor(kept, ImageKey(images[i])) != [])
    && (forall k :: PlatformsFor(kept, k) != [] ==> exists i :: 0 <= i < |images| && ImageKey(images[i]) == k)
  }

  lemma PlanCarries(cat: ImageCatalog, version: string, plan: ReleasePlan)
    requires IsPlan(cat, version, plan)
    ensures Carries(plan.images, Kept(cat, Product(cat)))
  {
    forall i | 0 <= i < |plan.images|
      ensures plan.images[i].platforms == PlatformsFor(Kept(cat, Product(cat)), ImageKey(plan.images[i])) != []
    {
      assert plan.images[i] in plan.images;
    }
    forall k | PlatformsFor(Kept(cat, Product(cat)), k) != []
      ensures exists i :: 0 <= i < |plan.images| && ImageKey(plan.images[i]) == k
    {
      var im :| im in plan.images && ImageKey(im) == k;
      var i :| 0 <= i < |plan.images| && plan.images[i] == im;
    }
  }

  lemma CarriesTriple(images: seq<PlannedImage>, kept: seq<Triple>, t: Triple)
    requires Carries(images, kept)
    ensures multiset(PlanTriples(images))[t] == multiset(kept)[t]
  {
    var key := (t.profile, t.image);
    PlatformsCount(kept, key, t.platform);
    if PlatformsFor(kept, key) != [] {
      CarriedTriple(images, kept, t);
    } else {
      forall i | 0 <= i < |images| ensures !Names(images[i], t) { assert ImageKey(images[i]) != key; }
      UnnamedCount(images, t);
    }
  }

  lemma CarriedTriple(images: seq<PlannedImage>, kept: seq<Triple>, t: Triple)
    requires Carries(images, kept) && PlatformsFor(kept, (t.profile, t.image)) != []
    ensures multiset(PlanTriples(images))[t] == multiset(PlatformsFor(kept, (t.profile, t.image)))[t.platform]
  {
    var i :| 0 <= i < |images| && ImageKey(images[i]) == (t.profile, t.image);
    NamedTriple(images, i, t);
  }

  /** The plan holds exactly the combinations no exclusion matches. */
  lemma PlanHoldsKept(cat: ImageCatalog, version: string, plan: ReleasePlan)
    requires IsPlan(cat, version, plan)
    ensures multiset(PlanTriples(plan.images)) == multiset(Kept(cat, Product(cat)))
  {
    PlanCarries(cat, version, plan);
    SameCounts(plan.images, Kept(cat, Product(cat)));
  }

  lemma SameCounts(images: seq<PlannedImage>, kept: seq<Triple>)
    requires Carries(images, kept)
    ensures multiset(PlanTriples(images)) == multiset(kept)
  {
    forall t: Triple ensures multiset(PlanTriples(images))[t] == multiset(kept)[t] { CarriesTriple(images, kept, t); }
  }

  /** Some exclusion names this combination, in each of its three fields outright or by a star. */
  predicate RuledOut(cat: ImageCatalog, t: Triple) {
    exists e | e in cat.exclude ::
      && e.image in {"*", t.image} && e.profile in {"*", t.profile}
      && e.platform in {"*", t.platform.os + "/" + t.platform.arch}
  }

  lemma ExcludedIsRuledOut(cat: ImageCatalog, t: Triple)
    ensures Excluded(cat, t) <==> RuledOut(cat, t)
  {
    if i :| 0 <= i < |cat.exclude| && Excludes(cat.exclude[i], t) { assert cat.exclude[i] in cat.exclude; }
  }

  /** The planning theorem: each combination once if and only if no exclusion matches it, and
      planned and excluded combinations together are the whole product. */
  lemma PlanIsProductMinusExclusions(cat: ImageCatalog, version: string, plan: ReleasePlan, t: Triple)
    requires Valid(cat) && IsPlan(cat, version, plan)
    ensures multiset(PlanTriples(plan.images))[t] == if InProduct(cat, t) && !RuledOut(cat, t) then 1 else 0
    ensures |PlanTriples(plan.images)| == plan.combinations
    ensures plan.combinations + ExcludedCount(cat, Product(cat)) == |cat.profiles| * (|cat.images| * |cat.platforms|)
  {
    PlanHoldsKept(cat, version, plan);
    ProductOnce(cat, t);
    KeptOnce(cat, Product(cat), t);
    ExcludedIsRuledOut(cat, t);
    assert |multiset(PlanTriples(plan.images))| == |multiset(Kept(cat, Product(cat)))|;
  }

  /** The tags of a plan are its profiles' templates with the version in the place of the first
      placeholder. */
  lemma PlanIsTagged(cat: ImageCatalog, version: string, plan: ReleasePlan)
    requires Valid(cat) && IsPlan(cat, version, plan)
    ensures AllTagged(cat, version, plan)
  {
    forall im | im in plan.images ensures TaggedByProfile(cat, version, im) {
      var a := ProfileOfImage(cat, version, plan, im);
      TagForProfile(cat.profiles, a, version);
      TagIsFilledIn(cat.profiles[a], version);
    }
  }

  lemma ProfileOfImage(cat: ImageCatalog, version: string, plan: ReleasePlan, im: PlannedImage) returns (a: nat)
    requires Valid(cat) && IsPlan(cat, version, plan) && im in plan.images
    ensures a < |cat.profiles| && cat.profiles[a].name == im.profile
  {
    var kept, p := Kept(cat, Product(cat)), im.platforms[0];
    var t := Triple(im.profile, im.name, p);
    assert p in multiset(im.platforms);
    PlatformsCount(kept, ImageKey(im), p);
    KeptOnce(cat, Product(cat), t);
    ProductOnce(cat, t);
    a :| 0 <= a < |cat.profiles| && ProfileNames(cat.profiles)[a] == im.profile;
  }

  /** A catalog has one plan: neither the order in which a map yields its entries nor the sort's
      treatment of ties can be seen in it. */
  lemma PlanIsUnique(cat: ImageCatalog, version: string, p: ReleasePlan, q: ReleasePlan)
    requires Valid(cat) && IsPlan(cat, version, p) && IsPlan(cat, version, q)
    ensures p == q
  {
    TargetKeysDiffer(cat, version, p);
    TargetKeysDiffer(cat, version, q);
    SameElementsSameMultiset(p.targets, q.targets);
    SortedAscends(p.targets, TargetKey);
    SortedAscends(q.targets, TargetKey);
    AscendingIsUnique(p.targets, q.targets, TargetKey);
    forall im: PlannedImage ensures im in p.images <==> im in q.images {
      PlannedInBoth(cat, version, p, q, im);
      PlannedInBoth(cat, version, q, p, im);
    }
    SameElementsSameMultiset(p.images, q.images);
    SortedAscends(p.images, ImageKey);
    SortedAscends(q.images, ImageKey);
    AscendingIsUnique(p.images, q.images, ImageKey);
  }

  lemma TargetKeysDiffer(cat: ImageCatalog, version: string, plan: ReleasePlan)
    requires Valid(cat) && IsPlan(cat, version, plan)
    ensures DistinctKeys(plan.targets, TargetKey)
  {
    PlatformsOnce(cat);
    assert forall i :: 0 <= i < |plan.targets| ==> plan.targets[i] in plan.targets;
  }

  lemma PlannedInBoth(cat: ImageCatalog, version: string, p: ReleasePlan, q: ReleasePlan, im: PlannedImage)
    requires IsPlan(cat, version, p) && IsPlan(cat, version, q)
    ensures im in p.images ==> im in q.images
  {
    if im in p.images {
      var other :| other in q.images && ImageKey(other) == ImageKey(im);
      assert other == im;
    }
  }
}
