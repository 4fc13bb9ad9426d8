/** The file a lock is written to (hack/imagelock/main.go). */
module LockNames {
  import opened Text
  import opened Catalog

  const STANDARD_PROFILE := "standard"

  function BaseName(artifact: string, version: string): string { "imagelock-" + artifact + "-" + version }

  /** The part of a file name that tells targets apart. */
  function TargetSuffix(g: Target): string {
    (if g.profile == STANDARD_PROFILE then "" else "-" + g.profile) + "-" + g.platform.os + "-" + g.platform.arch
  }

  /** lockFileName. */
  function LockFileName(artifact: string, version: string, g: Target): string {
    BaseName(artifact, version) + TargetSuffix(g) + ".yaml"
  }

  /** A file name spelled out; the standard profile is not named. */
  lemma FileNameSpelled(artifact: string, version: string, profile: string, os: string, arch: string)
    ensures LockFileName(artifact, version, Target(profile, Platform(os, arch)))
            == "imagelock-" + artifact + "-" + version + (if profile == "standard" then "" else "-" + profile)
               + "-" + os + "-" + arch + ".yaml"
  {
    var named := if profile == "standard" then "" else "-" + profile;
    var base := "imagelock-" + artifact + "-" + version;
    assert base + (named + "-" + os + "-" + arch) + ".yaml" == base + named + "-" + os + "-" + arch + ".yaml";
  }

  /** Different targets have different files. */
  ghost predicate NamesTellApart(artifact: string, version: string, targets: seq<Target>) {
    forall g, h | g in targets && h in targets ::
      LockFileName(artifact, version, g) == LockFileName(artifact, version, h) ==> g == h
  }

  /** A hyphen in an operating system's name can shift into the profile: two targets, one file. */
  lemma FileNamesCanCollide(artifact: string, version: string)
    ensures var g, h := Target("edge", Platform("a-b", "c")), Target("edge-a", Platform("b", "c"));
            g != h && LockFileName(artifact, version, g) == LockFileName(artifact, version, h)
  {
    var g, h := Target("edge", Platform("a-b", "c")), Target("edge-a", Platform("b", "c"));
    assert TargetSuffix(g) == "-edge-a-b-c";
    assert TargetSuffix(h) == "-edge-a-b-c";
  }

  lemma LastHyphen(x: string, a: string, y: string, b: string)
    requires x + "-" + a == y + "-" + b && '-' !in a && '-' !in b
    ensures x == y && a == b
  {
    var s := x + "-" + a;
    assert s[|x|] == '-' && s[|y|] == '-';
    AfterHyphen(x, a);
    AfterHyphen(y, b);
    assert s[..|x|] == x && s[..|y|] == y;
    assert s[|x| + 1..] == a && s[|y| + 1..] == b;
  }

  lemma AfterHyphen(x: string, a: string)
    requires '-' !in a
    ensures forall k :: |x| < k < |x + "-" + a| ==> (x + "-" + a)[k] != '-'
  {
    assert forall k :: |x| < k < |x + "-" + a| ==> (x + "-" + a)[k] == a[k - |x| - 1] && a[k - |x| - 1] in a;
  }

  predicate HyphenFree(p: Platform) { '-' !in p.os && '-' !in p.arch }

  /** Without hyphens in the platforms, different targets have different files. */
  lemma FileNamesDiffer(artifact: string, version: string, g: Target, h: Target)
    requires HyphenFree(g.platform) && HyphenFree(h.platform)
    requires LockFileName(artifact, version, g) == LockFileName(artifact, version, h)
    ensures g == h
  {
    var base := BaseName(artifact, version);
    var m := if g.profile == STANDARD_PROFILE then "" else "-" + g.profile;
    var n := if h.profile == STANDARD_PROFILE then "" else "-" + h.profile;
    var x, y := base + m + "-" + g.platform.os + "-" + g.platform.arch,
        base + n + "-" + h.platform.os + "-" + h.platform.arch;
    assert base + TargetSuffix(g) == x && base + TargetSuffix(h) == y;
    SameSuffix(x, y, ".yaml");
    LastHyphen(base + m + "-" + g.platform.os, g.platform.arch, base + n + "-" + h.platform.os, h.platform.arch);
    LastHyphen(base + m, g.platform.os, base + n, h.platform.os);
    SamePrefix(base, m, n);
    if g.profile != STANDARD_PROFILE && h.profile != STANDARD_PROFILE { SamePrefix("-", g.profile, h.profile); }
  }

  lemma SameSuffix(x: string, y: string, suffix: string)
    requires x + suffix == y + suffix
    ensures x == y
  {
    assert |x| == |y|;
    assert (x + suffix)[..|x|] == x && (y + suffix)[..|y|] == y;
  }

  /** So hyphen-free platforms are enough to tell the targets of a plan apart. */
  lemma HyphenFreeNamesTellApart(artifact: string, version: string, targets: seq<Target>)
    requires forall g :: g in targets ==> HyphenFree(g.platform)
    ensures NamesTellApart(artifact, version, targets)
  {
    forall g, h | g in targets && h in targets
        && LockFileName(artifact, version, g) == LockFileName(artifact, version, h)
      ensures g == h
    {
      FileNamesDiffer(artifact, version, g, h);
    }
  }
}
