/** The image-lock release planner: the cross product of profiles, images and platforms minus
    wildcard exclusions (hack/imagelock/catalog.go). */
module Catalog {
  import opened Text
  import opened Sorting

  const WILDCARD := "*"
  const VERSION_PLACEHOLDER := "{{version}}"

  datatype Platform = Platform(os: string, arch: string)

  datatype Profile = Profile(name: string, tagTemplate: string)

  datatype Exclusion = Exclusion(image: string, profile: string, platform: string, reason: string)

  datatype ImageCatalog = ImageCatalog(
    apiVersion: string,
    name: string,
    artifactName: string,
    repository: string,
    images: seq<string>,
    profiles: seq<Profile>,
    platforms: seq<Platform>,
    exclude: seq<Exclusion>)

  datatype Triple = Triple(profile: string, image: string, platform: Platform)

  datatype Target = Target(profile: string, platform: Platform)

  datatype PlannedImage = PlannedImage(profile: string, name: string, repo: string, tag: string,
      platforms: seq<Platform>)

  datatype ReleasePlan = ReleasePlan(targets: seq<Target>, images: seq<PlannedImage>, combinations: nat)

  function PlatformString(p: Platform): string { p.os + "/" + p.arch }

  /** The names a catalog lists, each once; what validateCatalog establishes. */
  predicate Valid(cat: ImageCatalog) {
    && NoDuplicates(cat.images)
    && NoDuplicates(ProfileNames(cat.profiles))
    && NoDuplicates(PlatformStrings(cat.platforms))
  }

  function ProfileNames(profiles: seq<Profile>): seq<string> {
    seq(|profiles|, i requires 0 <= i < |profiles| => profiles[i].name)
  }

  function PlatformStrings(platforms: seq<Platform>): seq<string> {
    seq(|platforms|, i requires 0 <= i < |platforms| => PlatformString(platforms[i]))
  }

  lemma PlatformsOnce(cat: ImageCatalog)
    requires Valid(cat)
    ensures NoDuplicates(cat.platforms)
    ensures forall p, q :: p in cat.platforms && q in cat.platforms && PlatformString(p) == PlatformString(q) ==> p == q
  {
    var names := PlatformStrings(cat.platforms);
    assert forall i :: 0 <= i < |names| ==> names[i] == PlatformString(cat.platforms[i]);
  }

  // ---------------------------------------------------------------- exclusions

  predicate SelectorMatches(selector: string, value: string) { selector == WILDCARD || selector == value }

  predicate Excludes(e: Exclusion, t: Triple) {
    SelectorMatches(e.image, t.image) && SelectorMatches(e.profile, t.profile)
        && SelectorMatches(e.platform, PlatformString(t.platform))
  }

  predicate Excluded(cat: ImageCatalog, t: Triple) { exists i :: 0 <= i < |cat.exclude| && Excludes(cat.exclude[i], t) }

  predicate Overlapping(cat: ImageCatalog, t: Triple) {
    exists i, j :: 0 <= i < j < |cat.exclude| && Excludes(cat.exclude[i], t) && Excludes(cat.exclude[j], t)
  }

  /** matchingExclusions. */
  method MatchingExclusions(cat: ImageCatalog, t: Triple) returns (matches: seq<nat>)
    ensures forall k :: 0 <= k < |matches| ==> matches[k] < |cat.exclude| && Excludes(cat.exclude[matches[k]], t)
    ensures |matches| == 0 <==> !Excluded(cat, t)
    ensures |matches| > 1 <==> Overlapping(cat, t)
    ensures |matches| == 1 ==> forall i :: 0 <= i < |cat.exclude| ==> (Excludes(cat.exclude[i], t) <==> i == matches[0])
  {
    matches := [];
    for i := 0 to |cat.exclude|
      invariant forall k :: 0 <= k < |matches| ==> matches[k] < i && Excludes(cat.exclude[matches[k]], t)
      invariant forall k, l :: 0 <= k < l < |matches| ==> matches[k] < matches[l]
      invariant forall j :: 0 <= j < i && Excludes(cat.exclude[j], t) ==> j in matches
    {
      if Excludes(cat.exclude[i], t) { matches := matches + [i]; }
    }
    MatchesMean(cat, t, matches);
  }

  lemma MatchesMean(cat: ImageCatalog, t: Triple, matches: seq<nat>)
    requires forall k :: 0 <= k < |matches| ==> matches[k] < |cat.exclude| && Excludes(cat.exclude[matches[k]], t)
    requires forall k, l :: 0 <= k < l < |matches| ==> matches[k] < matches[l]
    requires forall j :: 0 <= j < |cat.exclude| && Excludes(cat.exclude[j], t) ==> j in matches
    ensures |matches| == 0 <==> !Excluded(cat, t)
    ensures |matches| > 1 <==> Overlapping(cat, t)
    ensures |matches| == 1 ==> forall i :: 0 <= i < |cat.exclude| ==> (Excludes(cat.exclude[i], t) <==> i == matches[0])
  {
    if |matches| > 0 { assert Excludes(cat.exclude[matches[0]], t); }
    if |matches| == 1 {
      forall i | 0 <= i < |cat.exclude| ensures Excludes(cat.exclude[i], t) <==> i == matches[0] {
        if Excludes(cat.exclude[i], t) { assert i in matches; }
      }
    }
    if Overlapping(cat, t) {
      var i, j :| 0 <= i < j < |cat.exclude| && Excludes(cat.exclude[i], t) && Excludes(cat.exclude[j], t);
      assert i in matches && j in matches;
      var p :| 0 <= p < |matches| && matches[p] == i;
      var q :| 0 <= q < |matches| && matches[q] == j;
      assert p != q;
    }
    if |matches| > 1 {
      assert matches[0] < matches[1] && Excludes(cat.exclude[matches[0]], t) && Excludes(cat.exclude[matches[1]], t);
    }
  }

  // ---------------------------------------------------------------- the product

  function Row(cat: ImageCatalog, a: nat, b: nat, c: nat): seq<Triple>
    requires a < |cat.profiles| && b < |cat.images| && c <= |cat.platforms|
  {
    seq(c, k requires 0 <= k < c => Triple(cat.profiles[a].name, cat.images[b], cat.platforms[k]))
  }

  function Slab(cat: ImageCatalog, a: nat, b: nat): seq<Triple>
    requires a < |cat.profiles| && b <= |cat.images|
  {
    if b == 0 then [] else Slab(cat, a, b - 1) + Row(cat, a, b - 1, |cat.platforms|)
  }

  function Block(cat: ImageCatalog, a: nat): seq<Triple>
    requires a <= |cat.profiles|
  {
    if a == 0 then [] else Block(cat, a - 1) + Slab(cat, a - 1, |cat.images|)
  }

  /** Every combination, in the order the planner visits them. */
  function Product(cat: ImageCatalog): seq<Triple> { Block(cat, |cat.profiles|) }

  function Kept(cat: ImageCatalog, ts: seq<Triple>): seq<Triple> {
    if ts == [] then []
    else Kept(cat, ts[..|ts| - 1]) + (if Excluded(cat, ts[|ts| - 1]) then [] else [ts[|ts| - 1]])
  }

  function ExcludedCount(cat: ImageCatalog, ts: seq<Triple>): nat {
    if ts == [] then 0 else ExcludedCount(cat, ts[..|ts| - 1]) + (if Excluded(cat, ts[|ts| - 1]) then 1 else 0)
  }

  function MatchCount(e: Exclusion, ts: seq<Triple>): nat {
    if ts == [] then 0 else MatchCount(e, ts[..|ts| - 1]) + (if Excludes(e, ts[|ts| - 1]) then 1 else 0)
  }

  function TargetCount(ts: seq<Triple>, g: Target): nat {
    if ts == [] then 0
    else TargetCount(ts[..|ts| - 1], g) + (if Target(ts[|ts| - 1].profile, ts[|ts| - 1].platform) == g then 1 else 0)
  }

  function ImageCount(ts: seq<Triple>, name: string): nat {
    if ts == [] then 0 else ImageCount(ts[..|ts| - 1], name) + (if ts[|ts| - 1].image == name then 1 else 0)
  }

  /** The platforms kept for one profile and image, in visiting order. */
  function PlatformsFor(ts: seq<Triple>, key: (string, string)): seq<Platform> {
    if ts == [] then []
    else
      var t := ts[|ts| - 1];
      PlatformsFor(ts[..|ts| - 1], key) + (if (t.profile, t.image) == key then [t.platform] else [])
  }

  // ---------------------------------------------------------------- counters of the planner

  datatype Tally = Tally(
    matched: seq<nat>,
    targets: map<Target, nat>,
    images: map<string, nat>,
    planned: map<(string, string), PlannedImage>,
    combinations: nat)

  function Count<K>(m: map<K, nat>, k: K): nat { if k in m then m[k] else 0 }

  ghost predicate TallyIs(cat: ImageCatalog, version: string, y: Tally, ts: seq<Triple>) {
    && |y.matched| == |cat.exclude|
       && (forall e :: 0 <= e < |cat.exclude| ==> y.matched[e] == MatchCount(cat.exclude[e], ts))
    && KeptTally(cat, version, y, Kept(cat, ts))
  }

  ghost predicate KeptTally(cat: ImageCatalog, version: string, y: Tally, kept: seq<Triple>) {
    && y.combinations == |kept|
    && (forall g :: Count(y.targets, g) == TargetCount(kept, g))
    && (forall n :: Count(y.images, n) == ImageCount(kept, n))
    && (forall k :: k in y.planned <==> PlatformsFor(kept, k) != [])
    && (forall k :: k in y.planned ==>
       Describes(cat, version, k, y.planned[k]) && y.planned[k].platforms == PlatformsFor(kept, k))
  }

  /** The template with the first placeholder filled in. */
  function TagOf(p: Profile, version: string): string {
    var i := Index(p.tagTemplate, VERSION_PLACEHOLDER);
    if i < 0 then p.tagTemplate
    else p.tagTemplate[..i] + version + p.tagTemplate[i + |VERSION_PLACEHOLDER|..]
  }

  predicate NoPlaceholder(s: string) { forall i :: 0 <= i <= |s| ==> !OccursAt(s, VERSION_PLACEHOLDER, i) }

  /** The text of a template around its first placeholder. */
  predicate Around(template: string, before: string, after: string) {
    template == before + VERSION_PLACEHOLDER + after && NoPlaceholder(before)
  }

  /** A template with the version in place of its first placeholder, or as it is without one. */
  ghost predicate FilledIn(template: string, version: string, tag: string) {
    || (exists before, after :: Around(template, before, after) && tag == before + version + after)
    || (NoPlaceholder(template) && tag == template)
  }

  lemma TagIsFilledIn(p: Profile, version: string)
    ensures FilledIn(p.tagTemplate, version, TagOf(p, version))
  {
    IndexIsFirst(p.tagTemplate, VERSION_PLACEHOLDER);
    if Index(p.tagTemplate, VERSION_PLACEHOLDER) >= 0 { FirstIsAround(p.tagTemplate); }
  }

  lemma FirstIsAround(template: string)
    requires Index(template, VERSION_PLACEHOLDER) >= 0
    ensures var i := Index(template, VERSION_PLACEHOLDER);
            Around(template, template[..i], template[i + |VERSION_PLACEHOLDER|..])
  {
    var i, n := Index(template, VERSION_PLACEHOLDER), |VERSION_PLACEHOLDER|;
    FrontIsClear(template);
    IndexIsFirst(template, VERSION_PLACEHOLDER);
    assert template == template[..i] + template[i..i + n] + template[i + n..];
  }

  lemma FrontIsClear(template: string)
    requires Index(template, VERSION_PLACEHOLDER) >= 0
    ensures NoPlaceholder(template[..Index(template, VERSION_PLACEHOLDER)])
  {
    var i := Index(template, VERSION_PLACEHOLDER);
    var before, rest := template[..i], template[i..];
    assert template == before + rest;
    IndexIsFirst(template, VERSION_PLACEHOLDER);
    forall j: nat | j <= |before| ensures !OccursAt(before, VERSION_PLACEHOLDER, j) {
      OccursInFront(before, rest, j);
    }
  }

  /** Text without placeholder in front of one is everything in front of the first: two placeholders
      do not overlap. */
  lemma AroundFirst(template: string, before: string, after: string)
    requires Around(template, before, after)
    ensures var i := Index(template, VERSION_PLACEHOLDER);
            i == |before| && before == template[..i] && after == template[i + |VERSION_PLACEHOLDER|..]
  {
    var i, n := Index(template, VERSION_PLACEHOLDER), |VERSION_PLACEHOLDER|;
    IndexIsFirst(template, VERSION_PLACEHOLDER);
    assert template[|before|..|before| + n] == VERSION_PLACEHOLDER;
    assert template == before + (VERSION_PLACEHOLDER + after);
    assert OccursAt(template, VERSION_PLACEHOLDER, |before|);
    OccursInFront(before, VERSION_PLACEHOLDER + after, i);
    NoBorder(template, i, |before| - i);
  }

  lemma OccursInFront(before: string, rest: string, i: nat)
    ensures i + |VERSION_PLACEHOLDER| <= |before| ==>
              (OccursAt(before + rest, VERSION_PLACEHOLDER, i) <==> OccursAt(before, VERSION_PLACEHOLDER, i))
  {
    var n := |VERSION_PLACEHOLDER|;
    if i + n <= |before| { assert (before + rest)[i..i + n] == before[i..i + n]; }
  }

  lemma NoBorder(s: string, i: nat, k: nat)
    requires OccursAt(s, VERSION_PLACEHOLDER, i) && OccursAt(s, VERSION_PLACEHOLDER, i + k)
    ensures k == 0 || k >= |VERSION_PLACEHOLDER|
  {
    CharacterOf(s, i, 2);
    CharacterOf(s, i + k, 0);
    CharacterOf(s, i + k, 1);
    CharacterOf(s, i, if k < |VERSION_PLACEHOLDER| then k else 0);
  }

  lemma CharacterOf(s: string, i: nat, k: nat)
    requires OccursAt(s, VERSION_PLACEHOLDER, i) && k < |VERSION_PLACEHOLDER|
    ensures s[i + k] == VERSION_PLACEHOLDER[k]
  {
    assert s[i..i + |VERSION_PLACEHOLDER|][k] == s[i + k];
  }

  /** An image is tagged by the template of the profile it is planned for. */
  ghost predicate TaggedByProfile(cat: ImageCatalog, version: string, im: PlannedImage) {
    exists p :: p in cat.profiles && p.name == im.profile && FilledIn(p.tagTemplate, version, im.tag)
  }

  ghost predicate Describes(cat: ImageCatalog, version: string, key: (string, string), im: PlannedImage) {
    im.profile == key.0 && im.name == key.1 && im.repo == cat.repository + "/" + key.1
        && im.tag == TagFor(cat.profiles, key.0, version)
  }

  /** The tag of the profile with the given name. */
  function TagFor(profiles: seq<Profile>, name: string, version: string): string {
    if profiles == [] then ""
    else if profiles[|profiles| - 1].name == name then TagOf(profiles[|profiles| - 1], version)
    else TagFor(profiles[..|profiles| - 1], name, version)
  }

  lemma {:induction false} TagForProfile(profiles: seq<Profile>, a: nat, version: string)
    requires a < |profiles| && NoDuplicates(ProfileNames(profiles))
    ensures TagFor(profiles, profiles[a].name, version) == TagOf(profiles[a], version)
  {
    var n := |profiles| - 1;
    if a < n {
      assert ProfileNames(profiles)[a] != ProfileNames(profiles)[n];
      assert forall i :: 0 <= i < n ==> ProfileNames(profiles[..n])[i] == ProfileNames(profiles)[i];
      TagForProfile(profiles[..n], a, version);
    }
  }

  /** The position of the last exclusion that matches. */
  function Excluder(exclude: seq<Exclusion>, t: Triple): int {
    if exclude == [] then -1
    else if Excludes(exclude[|exclude| - 1], t) then |exclude| - 1
    else Excluder(exclude[..|exclude| - 1], t)
  }

  lemma {:induction false} ExcluderMeans(exclude: seq<Exclusion>, t: Triple)
    ensures -1 <= Excluder(exclude, t) < |exclude|
    ensures Excluder(exclude, t) >= 0 ==> Excludes(exclude[Excluder(exclude, t)], t)
    ensures Excluder(exclude, t) < 0 ==> forall i :: 0 <= i < |exclude| ==> !Excludes(exclude[i], t)
  {
    if exclude != [] { ExcluderMeans(exclude[..|exclude| - 1], t); }
  }

  /** The counters after one more combination that at most one exclusion matches. */
  function Counted(cat: ImageCatalog, version: string, y: Tally, t: Triple): Tally {
    var e := Excluder(cat.exclude, t);
    if 0 <= e < |y.matched| then y.(matched := y.matched[e := y.matched[e] + 1])
    else Planned(cat, version, y, t)
  }

  function Planned(cat: ImageCatalog, version: string, y: Tally, t: Triple): Tally {
    var target, key := Target(t.profile, t.platform), (t.profile, t.image);
    var entry := if key in y.planned then y.planned[key]
                 else PlannedImage(t.profile, t.image, cat.repository + "/" + t.image,
                     TagFor(cat.profiles, t.profile, version), []);
    Tally(y.matched,
          y.targets[target := Count(y.targets, target) + 1],
          y.images[t.image := Count(y.images, t.image) + 1],
          y.planned[key := entry.(platforms := entry.platforms + [t.platform])],
          y.combinations + 1)
  }

  function TallyOf(cat: ImageCatalog, version: string, ts: seq<Triple>): Tally {
    if ts == [] then Tally(seq(|cat.exclude|, _ => 0), map[], map[], map[], 0)
    else Counted(cat, version, TallyOf(cat, version, ts[..|ts| - 1]), ts[|ts| - 1])
  }

  /** What the counters mean. */
  lemma {:induction false} TallyMeans(cat: ImageCatalog, version: string, ts: seq<Triple>)
    requires NoOverlap(cat, ts)
    ensures TallyIs(cat, version, TallyOf(cat, version, ts), ts)
  {
    if ts != [] {
      var front, t := ts[..|ts| - 1], ts[|ts| - 1];
      assert ts == front + [t];
      assert NoOverlap(cat, front) by { assert forall i :: 0 <= i < |front| ==> front[i] == ts[i]; }
      TallyMeans(cat, version, front);
      ExcluderMeans(cat.exclude, t);
      var y := TallyOf(cat, version, front);
      if Excluder(cat.exclude, t) >= 0 {
        assert !Overlapping(cat, ts[|ts| - 1]);
        assert Kept(cat, ts) == Kept(cat, front);
      } else {
        PlannedMeans(cat, version, y, t, Kept(cat, front));
      }
    }
  }

  lemma PlannedMeans(cat: ImageCatalog, version: string, y: Tally, t: Triple, kept: seq<Triple>)
    requires KeptTally(cat, version, y, kept)
    ensures KeptTally(cat, version, Planned(cat, version, y, t), kept + [t])
  {
    var y' := Planned(cat, version, y, t);
    assert (kept + [t])[..|kept|] == kept;
    forall g ensures Count(y'.targets, g) == TargetCount(kept + [t], g) {
      assert Count(y.targets, g) == TargetCount(kept, g);
    }
    forall n ensures Count(y'.images, n) == ImageCount(kept + [t], n) {
      assert Count(y.images, n) == ImageCount(kept, n);
    }
    forall k ensures k in y'.planned <==> PlatformsFor(kept + [t], k) != []
             ensures k in y'.planned ==>
                       Describes(cat, version, k, y'.planned[k])
                           && y'.planned[k].platforms == PlatformsFor(kept + [t], k)
    {
      PlannedEntry(cat, version, y, t, kept, k);
    }
  }

  lemma PlannedEntry(cat: ImageCatalog, version: string, y: Tally, t: Triple, kept: seq<Triple>, k: (string, string))
    requires k in y.planned <==> PlatformsFor(kept, k) != []
    requires k in y.planned ==>
             Describes(cat, version, k, y.planned[k]) && y.planned[k].platforms == PlatformsFor(kept, k)
    ensures var y' := Planned(cat, version, y, t);
            && (k in y'.planned <==> PlatformsFor(kept + [t], k) != [])
            && (k in y'.planned ==>
                  Describes(cat, version, k, y'.planned[k]) && y'.planned[k].platforms == PlatformsFor(kept + [t], k))
  {
    assert (kept + [t])[..|kept|] == kept;
  }

  /** The innermost loop body; false when two exclusions cover the combination. */
  method Consider(cat: ImageCatalog, version: string, tag: string, t: Triple, y: Tally) returns (ok: bool, y': Tally)
    requires |y.matched| == |cat.exclude| && tag == TagFor(cat.profiles, t.profile, version)
    ensures ok <==> !Overlapping(cat, t)
    ensures ok ==> y' == Counted(cat, version, y, t)
  {
    var matching := MatchingExclusions(cat, t);
    ExcluderMeans(cat.exclude, t);
    if |matching| > 1 { return false, y; }
    ok := true;
    if |matching| == 1 {
      var e := matching[0];
      y' := y.(matched := y.matched[e := y.matched[e] + 1]);
      return;
    }
    var target := Target(t.profile, t.platform);
    var targets := y.targets[target := Count(y.targets, target) + 1];
    var images := y.images[t.image := Count(y.images, t.image) + 1];
    var key := (t.profile, t.image);
    var entry := if key in y.planned then y.planned[key]
                 else PlannedImage(t.profile, t.image, cat.repository + "/" + t.image, tag, []);
    var planned := y.planned[key := entry.(platforms := entry.platforms + [t.platform])];
    y' := Tally(y.matched, targets, images, planned, y.combinations + 1);
  }

  // ---------------------------------------------------------------- planning

  function Reference(cat: ImageCatalog, a: nat, b: nat, version: string): string
    requires a < |cat.profiles| && b < |cat.images|
  {
    cat.repository + "/" + cat.images[b] + ":" + TagFor(cat.profiles, cat.profiles[a].name, version)
  }

  predicate NoOverlap(cat: ImageCatalog, ts: seq<Triple>) { forall i :: 0 <= i < |ts| ==> !Overlapping(cat, ts[i]) }

  predicate TagsOk(cat: ImageCatalog, version: string, tagOk: string -> bool, a: nat, b: nat)
    requires a < |cat.profiles| && b <= |cat.images|
  {
    b > 0 ==> TagsOk(cat, version, tagOk, a, b - 1) && tagOk(Reference(cat, a, b - 1, version))
  }

  method VisitRow(cat: ImageCatalog, version: string, a: nat, b: nat, tag: string, y0: Tally, ghost ts: seq<Triple>)
    returns (ok: bool, y: Tally)
    requires a < |cat.profiles| && b < |cat.images| && y0 == TallyOf(cat, version, ts)
    requires tag == TagFor(cat.profiles, cat.profiles[a].name, version)
    ensures ok <==> NoOverlap(cat, Row(cat, a, b, |cat.platforms|))
    ensures ok ==> y == TallyOf(cat, version, ts + Row(cat, a, b, |cat.platforms|))
  {
    y := y0;
    ghost var done := ts;
    for c := 0 to |cat.platforms|
      invariant NoOverlap(cat, Row(cat, a, b, c))
      invariant done == ts + Row(cat, a, b, c)
      invariant y == TallyOf(cat, version, done)
    {
      var t := Triple(cat.profiles[a].name, cat.images[b], cat.platforms[c]);
      RowStep(cat, a, b, c);
      TallySnoc(cat, version, done, t);
      ok, y := Consider(cat, version, tag, t, y);
      if !ok { return; }
      done := done + [t];
    }
    ok := true;
  }

  lemma TallySnoc(cat: ImageCatalog, version: string, ts: seq<Triple>, t: Triple)
    ensures TallyOf(cat, version, ts + [t]) == Counted(cat, version, TallyOf(cat, version, ts), t)
    ensures |TallyOf(cat, version, ts).matched| == |cat.exclude|
  {
    assert (ts + [t])[..|ts|] == ts;
    MatchedLength(cat, version, ts);
  }

  lemma {:induction false} MatchedLength(cat: ImageCatalog, version: string, ts: seq<Triple>)
    ensures |TallyOf(cat, version, ts).matched| == |cat.exclude|
  {
    if ts != [] { MatchedLength(cat, version, ts[..|ts| - 1]); }
  }

  lemma RowStep(cat: ImageCatalog, a: nat, b: nat, c: nat)
    requires a < |cat.profiles| && b < |cat.images| && c < |cat.platforms|
    ensures var t := Triple(cat.profiles[a].name, cat.images[b], cat.platforms[c]);
            && Row(cat, a, b, c + 1) == Row(cat, a, b, c) + [t]
            && (NoOverlap(cat, Row(cat, a, b, c + 1)) <==> NoOverlap(cat, Row(cat, a, b, c)) && !Overlapping(cat, t))
            && (Overlapping(cat, t) ==> !NoOverlap(cat, Row(cat, a, b, |cat.platforms|)))
  {
    var t := Triple(cat.profiles[a].name, cat.images[b], cat.platforms[c]);
    assert Row(cat, a, b, c + 1) == Row(cat, a, b, c) + [t];
    NoOverlapConcat(cat, Row(cat, a, b, c), [t]);
    assert [t][0] == t;
    assert Row(cat, a, b, |cat.platforms|)[c] == t;
  }

  /** The second loop body: one image of one profile. */
  method VisitImage(cat: ImageCatalog, version: string, tagOk: string -> bool, a: nat, b: nat, tag: string, y0: Tally,
      ghost ts: seq<Triple>)
    returns (ok: bool, y: Tally)
    requires a < |cat.profiles| && b < |cat.images| && y0 == TallyOf(cat, version, ts)
    requires tag == TagFor(cat.profiles, cat.profiles[a].name, version)
    ensures ok <==> ImageOk(cat, version, tagOk, a, b)
    ensures ok ==> y == TallyOf(cat, version, ts + Row(cat, a, b, |cat.platforms|))
  {
    var valid := CheckTag(cat, version, tagOk, a, b, tag);
    if !valid { return false, y0; }
    ok, y := VisitRow(cat, version, a, b, tag, y0, ts);
  }

  predicate ImageOk(cat: ImageCatalog, version: string, tagOk: string -> bool, a: nat, b: nat)
    requires a < |cat.profiles| && b < |cat.images|
  {
    tagOk(Reference(cat, a, b, version)) && NoOverlap(cat, Row(cat, a, b, |cat.platforms|))
  }

  predicate SlabOk(cat: ImageCatalog, version: string, tagOk: string -> bool, a: nat, b: nat)
    requires a < |cat.profiles| && b <= |cat.images|
  {
    b > 0 ==> SlabOk(cat, version, tagOk, a, b - 1) && ImageOk(cat, version, tagOk, a, b - 1)
  }

  lemma {:induction false} SlabOkMeans(cat: ImageCatalog, version: string, tagOk: string -> bool, a: nat, b: nat)
    requires a < |cat.profiles| && b <= |cat.images|
    ensures SlabOk(cat, version, tagOk, a, b) <==> TagsOk(cat, version, tagOk, a, b) && NoOverlap(cat, Slab(cat, a, b))
  {
    if b > 0 {
      SlabOkMeans(cat, version, tagOk, a, b - 1);
      NoOverlapConcat(cat, Slab(cat, a, b - 1), Row(cat, a, b - 1, |cat.platforms|));
    }
  }

  lemma {:induction false} SlabOkExtends(cat: ImageCatalog, version: string, tagOk: string -> bool, a: nat, b: nat,
      b': nat)
    requires a < |cat.profiles| && b <= b' <= |cat.images|
    ensures SlabOk(cat, version, tagOk, a, b') ==> SlabOk(cat, version, tagOk, a, b)
  {
    if b < b' { SlabOkExtends(cat, version, tagOk, a, b, b' - 1); }
  }

  method ProfileTag(cat: ImageCatalog, version: string, a: nat) returns (tag: string)
    requires a < |cat.profiles| && Valid(cat)
    ensures tag == TagFor(cat.profiles, cat.profiles[a].name, version)
  {
    tag := TagOf(cat.profiles[a], version);
    TagForProfile(cat.profiles, a, version);
  }

  method VisitSlab(cat: ImageCatalog, version: string, tagOk: string -> bool, a: nat, tag: string, y0: Tally,
      ghost ts: seq<Triple>)
    returns (ok: bool, y: Tally)
    requires a < |cat.profiles| && tag == TagFor(cat.profiles, cat.profiles[a].name, version)
             && y0 == TallyOf(cat, version, ts)
    ensures ok <==> SlabOk(cat, version, tagOk, a, |cat.images|)
    ensures ok ==> y == TallyOf(cat, version, ts + Slab(cat, a, |cat.images|))
  {
    y := y0;
    assert ts + Slab(cat, a, 0) == ts;
    for b := 0 to |cat.images|
      invariant SlabOk(cat, version, tagOk, a, b)
      invariant y == TallyOf(cat, version, ts + Slab(cat, a, b))
    {
      SlabGrows(cat, a, b, ts);
      SlabOkExtends(cat, version, tagOk, a, b + 1, |cat.images|);
      ok, y := VisitImage(cat, version, tagOk, a, b, tag, y, ts + Slab(cat, a, b));
      if !ok { return; }
    }
    ok := true;
  }

  lemma SlabGrows(cat: ImageCatalog, a: nat, b: nat, ts: seq<Triple>)
    requires a < |cat.profiles| && b < |cat.images|
    ensures ts + Slab(cat, a, b + 1) == ts + Slab(cat, a, b) + Row(cat, a, b, |cat.platforms|)
  {
  }

  method CheckTag(cat: ImageCatalog, version: string, tagOk: string -> bool, a: nat, b: nat, tag: string)
    returns (valid: bool)
    requires a < |cat.profiles| && b < |cat.images| && tag == TagFor(cat.profiles, cat.profiles[a].name, version)
    ensures valid <==> tagOk(Reference(cat, a, b, version))
  {
    var repository := cat.repository + "/" + cat.images[b];
    valid := tagOk(repository + ":" + tag);
  }

  method VisitAll(cat: ImageCatalog, version: string, tagOk: string -> bool) returns (ok: bool, y: Tally)
    requires Valid(cat)
    ensures ok <==> AllTagsOk(cat, version, tagOk, |cat.profiles|) && NoOverlap(cat, Product(cat))
    ensures ok ==> y == TallyOf(cat, version, Product(cat))
  {
    y := TallyOf(cat, version, []);
    ghost var done: seq<Triple> := [];
    for a := 0 to |cat.profiles|
      invariant AllTagsOk(cat, version, tagOk, a) && NoOverlap(cat, Block(cat, a))
      invariant done == Block(cat, a)
      invariant y == TallyOf(cat, version, done)
    {
      BlockStep(cat, a);
      SlabOkMeans(cat, version, tagOk, a, |cat.images|);
      var tag := ProfileTag(cat, version, a);
      ok, y := VisitSlab(cat, version, tagOk, a, tag, y, done);
      if !ok { return; }
      done := done + Slab(cat, a, |cat.images|);
    }
    ok := true;
  }

  predicate AllTagsOk(cat: ImageCatalog, version: string, tagOk: string -> bool, a: nat)
    requires a <= |cat.profiles|
  {
    forall i :: 0 <= i < a ==> TagsOk(cat, version, tagOk, i, |cat.images|)
  }

  lemma BlockStep(cat: ImageCatalog, a: nat)
    requires a < |cat.profiles|
    ensures var slab := Slab(cat, a, |cat.images|);
            && (NoOverlap(cat, Block(cat, a + 1)) <==> NoOverlap(cat, Block(cat, a)) && NoOverlap(cat, slab))
            && (!NoOverlap(cat, slab) ==> !NoOverlap(cat, Product(cat)))
  {
    NoOverlapConcat(cat, Block(cat, a), Slab(cat, a, |cat.images|));
    BlockExtends(cat, a + 1, |cat.profiles|);
  }

  lemma NoOverlapConcat(cat: ImageCatalog, s: seq<Triple>, t: seq<Triple>)
    ensures NoOverlap(cat, s + t) <==> NoOverlap(cat, s) && NoOverlap(cat, t)
  {
    assert forall i :: 0 <= i < |s| ==> (s + t)[i] == s[i];
    assert forall i :: 0 <= i < |t| ==> (s + t)[|s| + i] == t[i];
  }

  /** A part with an overlap spoils the whole. */
  lemma {:induction false} BlockExtends(cat: ImageCatalog, a: nat, a': nat)
    requires a <= a' <= |cat.profiles|
    ensures NoOverlap(cat, Block(cat, a')) ==> NoOverlap(cat, Block(cat, a))
  {
    if a < a' {
      BlockExtends(cat, a, a' - 1);
      NoOverlapConcat(cat, Block(cat, a' - 1), Slab(cat, a' - 1, |cat.images|));
    }
  }
}
