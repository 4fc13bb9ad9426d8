/** Cgroup path normalisation and containment, and container-ID normalisation
    (fractioning-manager/common/mapping/store/container_store.go). */
module CgroupPaths {
  import opened Text

  // ---------------------------------------------------------------- reference definitions

  /** One pass over the path that keeps a single slash of every run. */
  function CollapseSlashes(s: string): string {
    if |s| <= 1 then s
    else if s[0] == '/' && s[1] == '/' then CollapseSlashes(s[1..])
    else [s[0]] + CollapseSlashes(s[1..])
  }

  function FirstSlash(s: string): (i: nat)
    ensures i <= |s| && '/' !in s[..i] && (i < |s| ==> s[i] == '/')
  {
    if s == "" || s[0] == '/' then 0 else FirstSlash(s[1..]) + 1
  }

  /** The non-empty path components. */
  function Components(s: string): seq<string>
    decreases |s|
  {
    if s == "" then []
    else if s[0] == '/' then Components(s[1..])
    else [s[..FirstSlash(s)]] + Components(s[FirstSlash(s)..])
  }

  function Join(cs: seq<string>): string {
    if cs == [] then "" else "/" + cs[0] + Join(cs[1..])
  }

  predicate ProperComponents(cs: seq<string>) {
    forall i :: 0 <= i < |cs| ==> cs[i] != "" && '/' !in cs[i]
  }

  /** The canonical spelling of a path: blank stays blank, otherwise the components
      each preceded by one slash, and "/" when there are none. */
  function Canonical(path: string): string {
    var t := TrimSpace(path);
    if t == "" then ""
    else if Components(t) == [] then "/"
    else Join(Components(t))
  }

  // ---------------------------------------------------------------- the code

  function Rooted(s: string): string { if HasPrefix(s, "/") then s else "/" + s }

  function StripTrailing(s: string): string { if s == "/" then s else TrimRightBy(s, IsSlash) }

  /** normalizeCgroupPath: the repeated replacement of "//" stops, and gives both the
      one-pass collapse of the rooted path and its canonical spelling by components. */
  method NormalizeCgroupPath(path: string) returns (r: string)
    ensures TrimSpace(path) != "" ==> r == StripTrailing(CollapseSlashes(Rooted(TrimSpace(path))))
    ensures r == Canonical(path)
  {
    r := TrimSpace(path);
    if r == "" { return ""; }
    if !HasPrefix(r, "/") { r := "/" + r; }
    ghost var rooted := Rooted(TrimSpace(path));
    while Contains(r, "//")
      invariant CollapseSlashes(r) == CollapseSlashes(rooted)
      decreases |r|
    {
      ReplaceKeepsCollapse(r);
      ReplaceShortens(r);
      r := ReplaceAll(r, "//", "/");
    }
    NothingToCollapse(r);
    RootedCollapse(TrimSpace(path));
    if r != "/" { r := TrimRightBy(r, IsSlash); }
  }

  /** cgroupPathContains. */
  predicate CgroupPathContains(processPath: string, containerPath: string) {
    var p, c := Canonical(processPath), Canonical(containerPath);
    if p == "" || c == "" || c == "/" then false
    else p == c || HasPrefix(p, c + "/")
  }

  /** normalizeContainerID. */
  function NormalizeContainerID(id: string): string {
    var t := TrimSpace(id);
    if t == "" then ""
    else
      var i := LastIndex(t, "://");
      var bare := if i >= 0 then t[i + 3..] else t;
      TrimRightBy(TrimLeftBy(bare, IsSlash), IsSlash)
  }

  /** cgroupPathContainsContainerID. */
  predicate CgroupPathContainsContainerID(processPath: string, id: string) {
    var p, c := Canonical(processPath), NormalizeContainerID(id);
    p != "" && c != "" && Contains(p, c)
  }

  // ---------------------------------------------------------------- results

  /** A normalised path is rooted, has no empty component and no trailing slash except
      the root, and normalising it again changes nothing about its components. */
  lemma CanonicalShape(path: string)
    ensures var r := Canonical(path);
            (r == "" <==> TrimSpace(path) == "")
            && (r != "" ==> r[0] == '/')
            && (forall i :: 0 <= i < |r| - 1 ==> !(r[i] == '/' && r[i + 1] == '/'))
            && (r != "/" && r != "" ==> r[|r| - 1] != '/')
            && Components(r) == Components(TrimSpace(path))
  {
    var cs := Components(TrimSpace(path));
    ComponentsProper(TrimSpace(path));
    JoinShape(cs);
    ComponentsOfJoin(cs);
    assert Components("/") == [] by { assert "/"[1..] == ""; }
  }

  /** Containment is exactly the component-wise prefix relation with a non-root container. */
  lemma ContainsIffComponentPrefix(processPath: string, containerPath: string)
    ensures CgroupPathContains(processPath, containerPath) <==>
            (Components(TrimSpace(containerPath)) != []
             && Components(TrimSpace(containerPath)) <= Components(TrimSpace(processPath)))
  {
    var p, c := Components(TrimSpace(processPath)), Components(TrimSpace(containerPath));
    ComponentsProper(TrimSpace(processPath));
    ComponentsProper(TrimSpace(containerPath));
    assert Components("") == [];
    if c != [] && p != [] {
      JoinPrefix(c, p);
      JoinNotRoot(c);
      JoinNotRoot(p);
    } else if c != [] {
      JoinNotRoot(c);
      assert !(c <= p);
      assert |Join(c)| >= 2;
    }
  }

  // ---------------------------------------------------------------- supporting lemmas

  lemma {:induction false} ReplaceShortens(s: string)
    requires Contains(s, "//")
    ensures |ReplaceAll(s, "//", "/")| < |s|
  {
    if "//" <= s {
      ReplaceNoLonger(s[2..]);
    } else {
      ReplaceShortens(s[1..]);
    }
  }

  lemma {:induction false} ReplaceNoLonger(s: string)
    ensures |ReplaceAll(s, "//", "/")| <= |s|
  {
    if |s| >= 2 {
      if "//" <= s { ReplaceNoLonger(s[2..]); } else { ReplaceNoLonger(s[1..]); }
    }
  }

  /** Collapsing after putting one character in front only needs the collapsed tail. */
  lemma CollapseCons(c: char, s: string)
    ensures CollapseSlashes([c] + s) ==
            (if c == '/' && s != "" && s[0] == '/' then CollapseSlashes(s) else [c] + CollapseSlashes(s))
    ensures s != "" ==> CollapseSlashes(s) != "" && CollapseSlashes(s)[0] == s[0]
  {
    assert ([c] + s)[1..] == s;
  }

  lemma {:induction false} ReplaceKeepsCollapse(s: string)
    ensures CollapseSlashes(ReplaceAll(s, "//", "/")) == CollapseSlashes(s)
    ensures (s == "" <==> ReplaceAll(s, "//", "/") == "")
    ensures s != "" ==> ReplaceAll(s, "//", "/")[0] == s[0]
  {
    if |s| >= 2 {
      if "//" <= s {
        var rest := s[2..];
        ReplaceKeepsCollapse(rest);
        CollapseCons('/', rest);
        CollapseCons('/', ReplaceAll(rest, "//", "/"));
        assert s[1..] == "/" + rest;
      } else {
        ReplaceKeepsCollapse(s[1..]);
        CollapseCons(s[0], s[1..]);
        CollapseCons(s[0], ReplaceAll(s[1..], "//", "/"));
        assert s == [s[0]] + s[1..];
      }
    }
  }

  lemma {:induction false} NothingToCollapse(s: string)
    requires !Contains(s, "//")
    ensures CollapseSlashes(s) == s
  {
    if |s| >= 2 {
      NothingToCollapse(s[1..]);
      assert s[0] == '/' && s[1] == '/' ==> "//" <= s;
    }
  }

  lemma {:induction false} ComponentsProper(s: string)
    ensures ProperComponents(Components(s))
    decreases |s|
  {
    if s != "" {
      if s[0] == '/' { ComponentsProper(s[1..]); } else { ComponentsProper(s[FirstSlash(s)..]); }
    }
  }

  lemma {:induction false} CollapseWord(w: string, r: string)
    requires '/' !in w
    ensures CollapseSlashes(w + r) == w + CollapseSlashes(r)
  {
    if w == "" {
      assert w + r == r;
    } else {
      CollapseWord(w[1..], r);
      CollapseCons(w[0], w[1..] + r);
      HeadAndRest(w, r);
      HeadAndRest(w, CollapseSlashes(r));
    }
  }

  lemma HeadAndRest(w: string, r: string)
    requires w != ""
    ensures w + r == [w[0]] + (w[1..] + r)
  {
  }

  lemma ComponentsWord(w: string, r: string)
    requires w != "" && '/' !in w && (r == "" || r[0] == '/')
    ensures Components(w + r) == [w] + Components(r)
  {
    FirstSlashOf(w, r);
    assert (w + r)[0] in w;
    assert (w + r)[..|w|] == w && (w + r)[|w|..] == r;
  }

  function TrailingSlash(s: string): string {
    if s == "" || s[|s| - 1] == '/' then "/" else ""
  }

  /** The collapsed form of a rooted path is its joined components, plus one slash when
      the path ended in a slash. */
  lemma {:induction false} CollapseIsJoin(s: string)
    ensures CollapseSlashes("/" + s) == Join(Components(s)) + TrailingSlash(s)
    decreases |s|
  {
    if s == "" {
    } else if s[0] == '/' {
      CollapseIsJoin(s[1..]);
      assert s == "/" + s[1..];
      CollapseSlash(s, s[1..]);
    } else {
      var i := FirstSlash(s);
      if i < |s| { CollapseIsJoin(s[i..][1..]); }
      assert s == s[..i] + s[i..];
      CollapseFirstWord(s[..i], s[i..]);
      CollapseCons('/', s);
    }
  }

  lemma CollapseSlash(s: string, t: string)
    requires s == "/" + t
    requires CollapseSlashes(s) == Join(Components(t)) + TrailingSlash(t)
    ensures CollapseSlashes("/" + s) == Join(Components(s)) + TrailingSlash(s)
  {
    CollapseCons('/', s);
    SlashAdds(s, t);
  }

  lemma SlashAdds(s: string, t: string)
    requires s == "/" + t
    ensures Components(s) == Components(t) && TrailingSlash(s) == TrailingSlash(t)
  {
    assert s[1..] == t;
  }

  lemma CollapseFirstWord(w: string, r: string)
    requires w != "" && '/' !in w && (r == "" || r[0] == '/')
    requires r != "" ==> CollapseSlashes("/" + r[1..]) == Join(Components(r[1..])) + TrailingSlash(r[1..])
    ensures "/" + CollapseSlashes(w + r) == Join(Components(w + r)) + TrailingSlash(w + r)
  {
    CollapseRest(w, r);
    JoinFirstWord(w, r);
    CollapseWord(w, r);
    Regroup(w, Join(Components(r)), TrailingSlash(w + r));
  }

  lemma Regroup(w: string, j: string, t: string)
    ensures "/" + (w + (j + t)) == "/" + w + j + t
  {
  }

  lemma CollapseRest(w: string, r: string)
    requires w != "" && '/' !in w && (r == "" || r[0] == '/')
    requires r != "" ==> CollapseSlashes("/" + r[1..]) == Join(Components(r[1..])) + TrailingSlash(r[1..])
    ensures CollapseSlashes(r) == Join(Components(r)) + TrailingSlash(w + r)
  {
    if r == "" {
      assert (w + r)[|w + r| - 1] in w;
    } else {
      assert r == "/" + r[1..];
    }
  }

  lemma JoinFirstWord(w: string, r: string)
    requires w != "" && '/' !in w && (r == "" || r[0] == '/')
    ensures Join(Components(w + r)) == "/" + w + Join(Components(r))
  {
    ComponentsWord(w, r);
    assert ([w] + Components(r))[1..] == Components(r);
  }

  lemma RootedCollapse(t: string)
    requires t != ""
    ensures StripTrailing(CollapseSlashes(Rooted(t))) ==
            (if Components(t) == [] then "/" else Join(Components(t)))
  {
    var body := if t[0] == '/' then t[1..] else t;
    RootedBody(t, body);
    CollapseIsJoin(body);
    ComponentsProper(body);
    if Components(body) != [] {
      JoinShape(Components(body));
      StripJoin(Join(Components(body)), TrailingSlash(body));
    }
  }

  lemma RootedBody(t: string, body: string)
    requires t != "" && body == if t[0] == '/' then t[1..] else t
    ensures Rooted(t) == "/" + body && Components(t) == Components(body)
  {
  }

  lemma StripJoin(j: string, slash: string)
    requires |j| >= 2 && j[|j| - 1] != '/' && (slash == "" || slash == "/")
    ensures StripTrailing(j + slash) == j
  {
    assert TrimRightBy(j, IsSlash) == j;
    if slash == "" { assert j + slash == j; } else { assert (j + slash)[..|j|] == j; }
  }

  lemma {:induction false} JoinShape(cs: seq<string>)
    requires ProperComponents(cs)
    ensures var r := Join(cs);
            (cs != [] ==> |r| >= 2 && r[0] == '/' && r[|r| - 1] != '/')
            && (forall i :: 0 <= i < |r| - 1 ==> !(r[i] == '/' && r[i + 1] == '/'))
  {
    if cs != [] {
      JoinShape(cs[1..]);
      assert forall i :: 0 <= i < |cs[0]| ==> cs[0][i] in cs[0];
    }
  }

  lemma JoinNotRoot(cs: seq<string>)
    requires ProperComponents(cs) && cs != []
    ensures Join(cs) != "/" && Join(cs) != ""
  {
    JoinShape(cs);
  }

  lemma {:induction false} ComponentsOfJoin(cs: seq<string>)
    requires ProperComponents(cs)
    ensures Components(Join(cs)) == cs
  {
    if cs != [] {
      ComponentsOfJoin(cs[1..]);
      JoinStarts(cs[1..]);
      JoinSplits(cs, cs[0], Join(cs[1..]));
      ComponentsWord(cs[0], Join(cs[1..]));
      SlashAdds(Join(cs), cs[0] + Join(cs[1..]));
      assert cs == [cs[0]] + cs[1..];
    }
  }

  lemma JoinStarts(cs: seq<string>)
    ensures Join(cs) == "" || Join(cs)[0] == '/'
  {
  }

  lemma JoinSplits(cs: seq<string>, w: string, r: string)
    requires cs != [] && w == cs[0] && r == Join(cs[1..])
    ensures Join(cs) == "/" + (w + r)
  {
    assert "/" + w + r == "/" + (w + r);
  }

  lemma {:induction false} FirstSlashOf(w: string, r: string)
    requires '/' !in w && (r == "" || r[0] == '/')
    ensures FirstSlash(w + r) == |w|
  {
    if w == "" {
      assert w + r == r;
    } else {
      FirstSlashOf(w[1..], r);
      assert (w + r)[1..] == w[1..] + r;
      assert (w + r)[0] in w;
    }
  }

  predicate Nested(x: string, y: string) { x == y || x + "/" <= y }

  /** Joined paths nest exactly when their component lists do. */
  lemma {:induction false} JoinPrefix(a: seq<string>, b: seq<string>)
    requires ProperComponents(a) && ProperComponents(b)
    ensures Nested(Join(a), Join(b)) <==> a <= b
  {
    if a != [] && b != [] {
      JoinPrefix(a[1..], b[1..]);
      assert a == [a[0]] + a[1..] && b == [b[0]] + b[1..];
      if a[0] == b[0] {
        NestedUnder("/" + a[0], Join(a[1..]), Join(b[1..]));
      } else {
        if Nested(Join(a), Join(b)) {
          JoinShape(a[1..]);
          JoinShape(b[1..]);
          FirstWordEqual(a[0], Join(a[1..]), b[0], Join(b[1..]));
        }
      }
    }
  }

  lemma NestedUnder(w: string, x: string, y: string)
    ensures Nested(w + x, w + y) <==> Nested(x, y)
  {
    SamePrefix(w, x, y);
    SamePrefix(w, x + "/", y);
    assert w + x + "/" == w + (x + "/");
  }

  lemma FirstWordEqual(a: string, ra: string, b: string, rb: string)
    requires '/' !in a && '/' !in b && (ra == "" || ra[0] == '/') && (rb == "" || rb[0] == '/')
    requires Nested("/" + a + ra, "/" + b + rb)
    ensures a == b
  {
    var x := "/" + a + ra + "/";
    var y := "/" + b + rb + "/";
    assert x <= y;
    WordThenSlash(a, ra, x);
    WordThenSlash(b, rb, y);
    assert |a| == |b|;
    assert a == x[1..|a| + 1] && b == y[1..|b| + 1];
  }

  lemma WordThenSlash(a: string, ra: string, x: string)
    requires '/' !in a && (ra == "" || ra[0] == '/') && x == "/" + a + ra + "/"
    ensures |x| > |a| + 1 && x[|a| + 1] == '/' && x[1..|a| + 1] == a
    ensures forall i :: 0 < i <= |a| ==> x[i] != '/'
  {
    assert forall i :: 0 < i <= |a| ==> x[i] == a[i - 1] && a[i - 1] in a;
  }
}
