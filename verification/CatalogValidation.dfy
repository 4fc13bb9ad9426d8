/** validateCatalog: exactly the catalogs it accepts, and what an accepted catalog guarantees the
    planner (hack/imagelock/catalog.go). The two library checks, the name pattern and the repository
    parser, are parameters. */
module CatalogValidation {
  import opened Text
  import opened Sorting
  import opened Catalog
  import opened ReleasePlans

  const CATALOG_API_VERSION := "imagelock.kai-scheduler.io/v1alpha1"

  /** strings.Count for a non-empty pattern: occurrences that do not overlap. */
  function Occurrences(s: string, pattern: string): nat
    requires pattern != ""
    decreases |s|
  {
    var i := Index(s, pattern);
    if i < 0 || i + |pattern| > |s| then 0 else 1 + Occurrences(s[i + |pattern|..], pattern)
  }

  /** The text of a template around its one placeholder. */
  predicate AroundOnce(template: string, before: string, after: string) {
    Around(template, before, after) && NoPlaceholder(after)
  }

  /** A template is counted as having one placeholder if and only if it is some text, the placeholder
      and some text, neither of them with another. */
  lemma OnceIffAround(template: string)
    ensures Occurrences(template, VERSION_PLACEHOLDER) == 1 <==>
            exists before, after :: AroundOnce(template, before, after)
    ensures Occurrences(template, VERSION_PLACEHOLDER) == 1 ==>
            forall before, after :: Around(template, before, after) ==> AroundOnce(template, before, after)
  {
    var i := Index(template, VERSION_PLACEHOLDER);
    forall before, after | Around(template, before, after)
      ensures i == |before| && before == template[..i] && after == template[i + |VERSION_PLACEHOLDER|..]
    {
      AroundFirst(template, before, after);
    }
    if i >= 0 {
      var after := template[i + |VERSION_PLACEHOLDER|..];
      FirstIsAround(template);
      IndexIsFirst(after, VERSION_PLACEHOLDER);
      assert Occurrences(template, VERSION_PLACEHOLDER) == 1 + Occurrences(after, VERSION_PLACEHOLDER);
      assert NoPlaceholder(after) <==> Index(after, VERSION_PLACEHOLDER) < 0;
      assert AroundOnce(template, template[..i], after) <==> NoPlaceholder(after);
    }
  }

  /** An image carries the template of its profile with the version in the place of the one
      placeholder. */
  ghost predicate FilledOnce(cat: ImageCatalog, version: string, im: PlannedImage) {
    exists p, before, after ::
      p in cat.profiles && p.name == im.profile && AroundOnce(p.tagTemplate, before, after)
      && im.tag == before + version + after
  }

  // ---------------------------------------------------------------- what is accepted

  predicate NamesOk(names: seq<string>, nameOk: string -> bool) {
    names != [] && (forall i :: 0 <= i < |names| ==> nameOk(names[i])) && NoDuplicates(names)
  }

  predicate PlatformOk(p: Platform) { p.os != "" && p.arch != "" && '/' !in p.os && '/' !in p.arch }

  predicate PlatformsOk(platforms: seq<Platform>) {
    && platforms != []
    && (forall i :: 0 <= i < |platforms| ==> PlatformOk(platforms[i]))
    && NoDuplicates(platforms)
  }

  predicate SelectorOk(selector: string, known: seq<string>) {
    selector == WILDCARD || (selector != "" && selector in known)
  }

  predicate ExclusionOk(cat: ImageCatalog, e: Exclusion) {
    && TrimSpace(e.reason) != ""
    && SelectorOk(e.image, cat.images)
    && SelectorOk(e.profile, ProfileNames(cat.profiles))
    && SelectorOk(e.platform, PlatformStrings(cat.platforms))
  }

  predicate SameSelectors(e: Exclusion, f: Exclusion) {
    e.image == f.image && e.profile == f.profile && e.platform == f.platform
  }

  predicate ExclusionsOk(cat: ImageCatalog) { ExclusionsOkTo(cat, |cat.exclude|) }

  /** The first k exclusions are well-formed and none of them repeats another. */
  predicate ExclusionsOkTo(cat: ImageCatalog, k: nat)
    requires k <= |cat.exclude|
  {
    && (forall i :: 0 <= i < k ==> ExclusionOk(cat, cat.exclude[i]))
    && (forall i, j :: 0 <= i < j < k ==> !SameSelectors(cat.exclude[i], cat.exclude[j]))
  }

  predicate TemplatesOk(profiles: seq<Profile>) {
    forall i :: 0 <= i < |profiles| ==> Occurrences(profiles[i].tagTemplate, VERSION_PLACEHOLDER) == 1
  }

  predicate HeaderOk(cat: ImageCatalog, nameOk: string -> bool, repositoryOk: string -> bool) {
    && cat.apiVersion == CATALOG_API_VERSION && nameOk(cat.name) && nameOk(cat.artifactName)
    && !HasSuffix(cat.repository, "/") && repositoryOk(cat.repository)
  }

  predicate Accepted(cat: ImageCatalog, nameOk: string -> bool, repositoryOk: string -> bool) {
    && HeaderOk(cat, nameOk, repositoryOk)
    && NamesOk(cat.images, nameOk)
    && NamesOk(ProfileNames(cat.profiles), nameOk)
    && PlatformsOk(cat.platforms)
    && TemplatesOk(cat.profiles)
    && ExclusionsOk(cat)
  }

  // ---------------------------------------------------------------- the validators

  ghost function Elements<T>(s: seq<T>): set<T> { set x | x in s }

  method UniqueCatalogNames(names: seq<string>, nameOk: string -> bool) returns (ok: bool, unique: set<string>)
    ensures ok <==> NamesOk(names, nameOk)
    ensures ok ==> unique == Elements(names)
  {
    unique := {};
    if |names| == 0 { return false, unique; }
    for i := 0 to |names|
      invariant unique == Elements(names[..i])
      invariant forall k :: 0 <= k < i ==> nameOk(names[k])
      invariant NoDuplicates(names[..i])
    {
      assert names[..i + 1] == names[..i] + [names[i]];
      if !nameOk(names[i]) { return false, unique; }
      if names[i] in unique {
        var k :| 0 <= k < i && names[k] == names[i];
        return false, unique;
      }
      unique := unique + {names[i]};
    }
    assert names[..|names|] == names;
    ok := true;
  }

  lemma SlashAfter(p: Platform)
    requires PlatformOk(p)
    ensures forall k :: 0 <= k < |p.os| ==> PlatformString(p)[k] != '/'
  {
    assert forall k :: 0 <= k < |p.os| ==> PlatformString(p)[k] == p.os[k] && p.os[k] in p.os;
  }

  lemma PlatformStringInjective(p: Platform, q: Platform)
    requires PlatformOk(p) && PlatformOk(q) && PlatformString(p) == PlatformString(q)
    ensures p == q
  {
    var s := PlatformString(p);
    assert s[|p.os|] == '/' && s[|q.os|] == '/';
    SlashAfter(p);
    SlashAfter(q);
    assert s[..|p.os|] == p.os && s[..|q.os|] == q.os;
    assert s[|p.os| + 1..] == p.arch && s[|q.os| + 1..] == q.arch;
  }

  method UniquePlatforms(entries: seq<Platform>) returns (ok: bool, unique: set<string>)
    ensures ok <==> PlatformsOk(entries)
    ensures ok ==> unique == Elements(PlatformStrings(entries))
  {
    unique := {};
    if |entries| == 0 { return false, unique; }
    for i := 0 to |entries|
      invariant unique == Elements(PlatformStrings(entries[..i]))
      invariant forall k :: 0 <= k < i ==> PlatformOk(entries[k])
      invariant NoDuplicates(entries[..i])
    {
      var p := entries[i];
      if p.os == "" || p.arch == "" || '/' in p.os || '/' in p.arch { return false, unique; }
      PlatformSeen(entries, i);
      if PlatformString(p) in unique { return false, unique; }
      unique := unique + {PlatformString(p)};
    }
    assert entries[..|entries|] == entries;
    ok := true;
  }

  lemma PlatformSeen(entries: seq<Platform>, i: nat)
    requires i < |entries| && forall k :: 0 <= k <= i ==> PlatformOk(entries[k])
    ensures PlatformString(entries[i]) in Elements(PlatformStrings(entries[..i])) <==>
            exists k :: 0 <= k < i && entries[k] == entries[i]
    ensures Elements(PlatformStrings(entries[..i + 1]))
            == Elements(PlatformStrings(entries[..i])) + {PlatformString(entries[i])}
    ensures NoDuplicates(entries[..i + 1]) <==>
            NoDuplicates(entries[..i]) && !exists k :: 0 <= k < i && entries[k] == entries[i]
  {
    var before := PlatformStrings(entries[..i]);
    assert entries[..i + 1] == entries[..i] + [entries[i]];
    assert PlatformStrings(entries[..i + 1]) == before + [PlatformString(entries[i])];
    forall k | 0 <= k < i ensures before[k] == PlatformString(entries[i]) <==> entries[k] == entries[i] {
      if before[k] == PlatformString(entries[i]) { PlatformStringInjective(entries[k], entries[i]); }
    }
  }

  method ValidateTemplates(profiles: seq<Profile>) returns (ok: bool)
    ensures ok <==> TemplatesOk(profiles)
  {
    for i := 0 to |profiles|
      invariant forall k :: 0 <= k < i ==> Occurrences(profiles[k].tagTemplate, VERSION_PLACEHOLDER) == 1
    {
      if Occurrences(profiles[i].tagTemplate, VERSION_PLACEHOLDER) != 1 { return false; }
    }
    ok := true;
  }

  function ValidateSelector(selector: string, known: set<string>): (ok: bool) {
    if selector == WILDCARD then true else if selector == "" then false else selector in known
  }

  function Selectors(e: Exclusion): (string, string, string) { (e.image, e.profile, e.platform) }

  method ValidateExclusion(cat: ImageCatalog, e: Exclusion, images: set<string>, profiles: set<string>,
      platforms: set<string>) returns (ok: bool)
    requires images == Elements(cat.images) && profiles == Elements(ProfileNames(cat.profiles))
    requires platforms == Elements(PlatformStrings(cat.platforms))
    ensures ok <==> ExclusionOk(cat, e)
  {
    if TrimSpace(e.reason) == "" { return false; }
    if !ValidateSelector(e.image, images) { return false; }
    if !ValidateSelector(e.profile, profiles) { return false; }
    ok := ValidateSelector(e.platform, platforms);
  }

  method ValidateExclusions(cat: ImageCatalog, images: set<string>, profiles: set<string>, platforms: set<string>)
    returns (ok: bool)
    requires images == Elements(cat.images) && profiles == Elements(ProfileNames(cat.profiles))
    requires platforms == Elements(PlatformStrings(cat.platforms))
    ensures ok <==> ExclusionsOk(cat)
  {
    var seen: set<(string, string, string)> := {};
    for i := 0 to |cat.exclude|
      invariant ExclusionsOkTo(cat, i)
      invariant seen == SelectorsSeen(cat.exclude, i)
    {
      var e := cat.exclude[i];
      ExclusionsStep(cat, i);
      SelectorsGrow(cat.exclude, i);
      ok := ValidateExclusion(cat, e, images, profiles, platforms);
      if !ok { return; }
      if Selectors(e) in seen { return false; }
      seen := seen + {Selectors(e)};
    }
    ok := true;
  }

  /** The selectors of the first k exclusions. */
  function SelectorsSeen(exclude: seq<Exclusion>, k: nat): set<(string, string, string)>
    requires k <= |exclude|
  {
    set i | 0 <= i < k :: Selectors(exclude[i])
  }

  lemma SelectorsGrow(exclude: seq<Exclusion>, i: nat)
    requires i < |exclude|
    ensures SelectorsSeen(exclude, i + 1) == SelectorsSeen(exclude, i) + {Selectors(exclude[i])}
  {
  }

  lemma ExclusionsStep(cat: ImageCatalog, i: nat)
    requires i < |cat.exclude|
    ensures ExclusionsOkTo(cat, i + 1) <==>
              && ExclusionsOkTo(cat, i) && ExclusionOk(cat, cat.exclude[i])
              && Selectors(cat.exclude[i]) !in SelectorsSeen(cat.exclude, i)
    ensures ExclusionsOk(cat) ==> ExclusionsOkTo(cat, i + 1)
  {
    if Selectors(cat.exclude[i]) in SelectorsSeen(cat.exclude, i) {
      var k :| 0 <= k < i && Selectors(cat.exclude[k]) == Selectors(cat.exclude[i]);
      assert SameSelectors(cat.exclude[k], cat.exclude[i]);
    } else {
      assert forall k :: 0 <= k < i ==> Selectors(cat.exclude[k]) in SelectorsSeen(cat.exclude, i);
    }
  }

  /** Accepts exactly the accepted catalogs. */
  method ValidateCatalog(cat: ImageCatalog, nameOk: string -> bool, repositoryOk: string -> bool) returns (ok: bool)
    ensures ok <==> Accepted(cat, nameOk, repositoryOk)
  {
    if cat.apiVersion != CATALOG_API_VERSION { return false; }
    if !nameOk(cat.name) { return false; }
    if !nameOk(cat.artifactName) { return false; }
    if HasSuffix(cat.repository, "/") { return false; }
    if !repositoryOk(cat.repository) { return false; }
    var images, profiles, platforms;
    ok, images := UniqueCatalogNames(cat.images, nameOk);
    if !ok { return; }
    ok, profiles := UniqueCatalogNames(ProfileNames(cat.profiles), nameOk);
    if !ok { return; }
    ok, platforms := UniquePlatforms(cat.platforms);
    if !ok { return; }
    ok := ValidateTemplates(cat.profiles);
    if !ok { return; }
    ok := ValidateExclusions(cat, images, profiles, platforms);
  }

  // ---------------------------------------------------------------- what acceptance guarantees

  /** An accepted catalog meets the planner's needs. */
  lemma AcceptedIsValid(cat: ImageCatalog, nameOk: string -> bool, repositoryOk: string -> bool)
    requires Accepted(cat, nameOk, repositoryOk)
    ensures Valid(cat)
  {
    var names := PlatformStrings(cat.platforms);
    forall i, j | 0 <= i < j < |names| ensures names[i] != names[j] {
      if names[i] == names[j] { PlatformStringInjective(cat.platforms[i], cat.platforms[j]); }
    }
  }

  lemma SelectorMatchesSome(selector: string, known: seq<string>) returns (i: nat)
    requires SelectorOk(selector, known) && known != []
    ensures i < |known| && SelectorMatches(selector, known[i])
  {
    if selector == WILDCARD { i := 0; } else { i :| 0 <= i < |known| && known[i] == selector; }
  }

  /** Every exclusion of an accepted catalog matches a combination, so the planner's check for
      exclusions that match nothing never fires on one. */
  lemma AcceptedExclusionsHit(cat: ImageCatalog, nameOk: string -> bool, repositoryOk: string -> bool, e: nat)
    requires Accepted(cat, nameOk, repositoryOk) && e < |cat.exclude|
    ensures Hits(cat.exclude[e], Product(cat))
  {
    var x := cat.exclude[e];
    assert ExclusionOk(cat, x);
    var b := SelectorMatchesSome(x.image, cat.images);
    var a := SelectorMatchesSome(x.profile, ProfileNames(cat.profiles));
    var c := SelectorMatchesSome(x.platform, PlatformStrings(cat.platforms));
    AcceptedIsValid(cat, nameOk, repositoryOk);
    var i := Visited(cat, a, b, c);
    assert Excludes(x, Product(cat)[i]);
  }

  /** On accepted catalogs planning fails only for a bad tag, overlapping exclusions, or exclusions
      that empty an image or a target. */
  lemma AcceptedPlannable(cat: ImageCatalog, version: string, tagOk: string -> bool, nameOk: string -> bool,
      repositoryOk: string -> bool)
    requires Accepted(cat, nameOk, repositoryOk)
    ensures Plannable(cat, version, tagOk) <==>
            && AllTagsOk(cat, version, tagOk, |cat.profiles|)
            && NoOverlap(cat, Product(cat))
            && (forall b :: 0 <= b < |cat.images| ==> Mentions(Kept(cat, Product(cat)), cat.images[b]))
            && (forall a :: 0 <= a < |cat.profiles| ==> RowPopulated(cat, Kept(cat, Product(cat)), a))
  {
    forall e | 0 <= e < |cat.exclude|
      ensures Hits(cat.exclude[e], Product(cat))
    {
      AcceptedExclusionsHit(cat, nameOk, repositoryOk, e);
    }
  }
}
