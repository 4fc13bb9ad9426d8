/** Container IDs as runtimes spell them: with a scheme or without, in cgroup paths and as file names
    (fractioning-manager/common/mapping/store/container_store.go and
    fractioning-manager/common/mapping/fsstore/record.go). */
module ContainerIDs {
  import opened Text
  import opened CgroupPaths
  import opened ContainerStores
  import opened FsStores

  /** A non-empty ID without slash and without space at either end. */
  predicate Plain(id: string) { id != "" && '/' !in id && !IsSpace(id[0]) && !IsSpace(id[|id| - 1]) }

  ghost predicate Occurs(s: string, sub: string) { exists i :: OccursAt(s, sub, i) }

  // ---------------------------------------------------------------- main results

  /** A scheme in front of a plain ID is dropped, by the store and by the file name alike. */
  lemma SchemeIsDropped(scheme: string, id: string)
    requires Plain(id) && (scheme == "" || !IsSpace(scheme[0]))
    ensures NormalizeContainerID(scheme + "://" + id) == id == NormalizeContainerID(id)
    ensures '\\' !in id ==> SanitizeContainerID(scheme + "://" + id) == id == SanitizeContainerID(id)
  {
    var s := scheme + "://" + id;
    PlainIsTrimmed(id);
    assert s[|s| - 1] == id[|id| - 1] && s[0] == if scheme == "" then ':' else scheme[0];
    TrimSpaceFixed(s);
    LastScheme(scheme, id);
    NoScheme(id);
    assert s[|scheme| + 3..] == id;
    ReplaceNothing(id, '/');
    if '\\' !in id { ReplaceNothing(id, '\\'); }
  }

  /** A process's cgroup path names a container by its plain ID exactly if the ID occurs in the path. */
  lemma ContainsIDIffOccurs(path: string, id: string)
    requires Plain(NormalizeContainerID(id))
    ensures CgroupPathContainsContainerID(path, id) <==> Occurs(path, NormalizeContainerID(id))
  {
    var c, t, r := NormalizeContainerID(id), TrimSpace(path), Canonical(path);
    ContainsIffOccurs(r, c);
    CanonicalShape(path);
    OccursIffInComponent(r, c);
    OccursIffInComponent(t, c);
    OccursInCore(path, c);
    if r == "" { assert !Occurs(t, c) by { OccursIffInComponent("", c); } }
  }

  /** A path lies under the cgroup of a container, or the container's ID occurs in it. */
  ghost predicate LiesOn(path: string, info: ContainerInfo) {
    var own := Components(TrimSpace(info.cgroupPath));
    (own != [] && own <= Components(TrimSpace(path))) || Occurs(path, NormalizeContainerID(info.containerID))
  }

  predicate PlainIDs(m: Mapping) { forall k :: k in m ==> Plain(NormalizeContainerID(m[k].containerID)) }

  /** A lookup answers if and only if one of the paths lies on a container, and with a container on
      which the first such path lies. */
  lemma LookupMeans(m: Mapping, paths: seq<string>, r: Option<ContainerInfo>)
    requires IsLookup(m, paths, r, PathMatches) && PlainIDs(m)
    ensures r.Some? <==> exists i, k :: 0 <= i < |paths| && k in m && LiesOn(paths[i], m[k])
    ensures r.Some? ==>
              exists i, k :: && 0 <= i < |paths| && k in m && r.value == m[k] && LiesOn(paths[i], m[k])
                             && forall j, l :: 0 <= j < i && l in m ==> !LiesOn(paths[j], m[l])
  {
    forall i, k | 0 <= i < |paths| && k in m ensures LiesOn(paths[i], m[k]) <==> PathMatches(paths[i], m[k]) {
      ContainsIDIffOccurs(paths[i], m[k].containerID);
      ContainsIffComponentPrefix(paths[i], m[k].cgroupPath);
    }
    if r.Some? {
      var i :| FirstMatch(m, paths, i, PathMatches) && PathMatches(paths[i], r.value);
      var k :| k in m && m[k] == r.value;
      assert LiesOn(paths[i], m[k]);
      forall j, l | 0 <= j < i && l in m ensures !LiesOn(paths[j], m[l]) {
        assert !SomeMatch(m, paths[j], PathMatches);
      }
    } else {
      forall i, k | 0 <= i < |paths| && k in m ensures !LiesOn(paths[i], m[k]) {
        assert !SomeMatch(m, paths[i], PathMatches);
      }
    }
  }

  /** A container is deleted by either spelling of its ID, with a scheme or without, whichever it is
      stored under, and no other container goes with it. */
  lemma SpellingsDeleteAlike(m: Mapping, scheme: string, id: string, k: string)
    requires Plain(id) && (scheme == "" || !IsSpace(scheme[0])) && k in m
    ensures var spelled := scheme + "://" + id;
            && (k == id || k == spelled ==> k !in WithoutContainer(m, id) && k !in WithoutContainer(m, spelled))
            && (NormalizeContainerID(k) != id ==>
                  && k in WithoutContainer(m, id) && k in WithoutContainer(m, spelled)
                  && WithoutContainer(m, id)[k] == m[k] == WithoutContainer(m, spelled)[k])
  {
    SchemeIsDropped(scheme, id);
  }

  // ---------------------------------------------------------------- schemes

  lemma PlainIsTrimmed(id: string)
    requires Plain(id)
    ensures TrimSpace(id) == id && TrimRightBy(TrimLeftBy(id, IsSlash), IsSlash) == id
  {
    TrimSpaceFixed(id);
    assert id[0] in id && id[|id| - 1] in id;
  }

  lemma NoScheme(id: string)
    requires '/' !in id
    ensures LastIndex(id, "://") < 0
  {
    if LastIndex(id, "://") >= 0 { FoundMeansContained(id, "://", 1); }
  }

  lemma LastScheme(scheme: string, id: string)
    requires '/' !in id
    ensures LastIndex(scheme + "://" + id, "://") == |scheme|
  {
    var s := scheme + "://" + id;
    LastIndexIsLast(s, "://");
    assert s[|scheme|..|scheme| + 3] == "://";
    assert OccursAt(s, "://", |scheme|);
    SchemeEndsEarly(scheme, id, LastIndex(s, "://"));
  }

  lemma SchemeEndsEarly(scheme: string, id: string, i: nat)
    requires '/' !in id && OccursAt(scheme + "://" + id, "://", i)
    ensures i <= |scheme|
  {
    var s := scheme + "://" + id;
    var tail := s[|scheme| + 3..];
    assert tail == id;
    assert s[i + 2] == s[i..i + 3][2] == '/';
  }

  lemma ReplaceNothing(s: string, c: char)
    requires c !in s
    ensures ReplaceAll(s, [c], "_") == s
  {
    ReplaceCharPointwise(s, c, '_');
  }

  // ---------------------------------------------------------------- occurrences

  lemma {:induction false} ContainsIffOccurs(s: string, sub: string)
    ensures Contains(s, sub) <==> Occurs(s, sub)
  {
    if sub <= s {
      assert OccursAt(s, sub, 0);
    } else if s != "" {
      ContainsIffOccurs(s[1..], sub);
      OccursInRest(s, sub);
    }
  }

  /** An occurrence that is not at the start is one in the rest. */
  lemma OccursInRest(s: string, sub: string)
    requires s != "" && !(sub <= s)
    ensures Occurs(s, sub) <==> Occurs(s[1..], sub)
  {
    if i :| OccursAt(s, sub, i) {
      assert i != 0;
      assert s[1..][i - 1..i - 1 + |sub|] == s[i..i + |sub|];
      assert OccursAt(s[1..], sub, i - 1);
    }
    if i :| OccursAt(s[1..], sub, i) {
      assert s[1..][i..i + |sub|] == s[i + 1..i + 1 + |sub|];
      assert OccursAt(s, sub, i + 1);
    }
  }

  /** A text that starts and ends with no space occurs in a string exactly if it does in its core. */
  lemma OccursInCore(s: string, sub: string)
    requires Plain(sub)
    ensures Occurs(TrimSpace(s), sub) <==> Occurs(s, sub)
  {
    TrimSpaceMeans(s, 0, 0);
    var a, b :| IsCore(s, a, b) && TrimSpace(s) == s[a..b];
    if i :| OccursAt(s, sub, i) { OccursInside(s, sub, i, a, b); }
    if i :| OccursAt(s[a..b], sub, i) { OccursOutside(s, sub, i, a, b); }
  }

  lemma OccursInside(s: string, sub: string, i: nat, a: nat, b: nat)
    requires Plain(sub) && OccursAt(s, sub, i) && IsCore(s, a, b)
    ensures i >= a && OccursAt(s[a..b], sub, i - a)
  {
    InsideCore(s, sub, i, a, b);
    SliceOfSlice(s, a, b, i - a, i - a + |sub|);
  }

  lemma OccursOutside(s: string, sub: string, i: nat, a: nat, b: nat)
    requires a <= b <= |s| && OccursAt(s[a..b], sub, i)
    ensures OccursAt(s, sub, a + i)
  {
    SliceOfSlice(s, a, b, i, i + |sub|);
  }

  lemma InsideCore(s: string, sub: string, i: nat, a: nat, b: nat)
    requires Plain(sub) && OccursAt(s, sub, i) && IsCore(s, a, b)
    ensures a <= i && i + |sub| <= b
  {
    assert s[i] == s[i..i + |sub|][0] == sub[0];
    assert s[i + |sub| - 1] == s[i..i + |sub|][|sub| - 1] == sub[|sub| - 1];
  }

  lemma SliceOfSlice(s: string, a: nat, b: nat, i: nat, j: nat)
    requires a <= b <= |s| && i <= j <= b - a
    ensures s[a..b][i..j] == s[a + i..a + j]
  {
    forall k | 0 <= k < j - i ensures s[a..b][i..j][k] == s[a + i..a + j][k] {
      assert s[a..b][i + k] == s[a + i + k];
    }
  }

  ghost predicate InComponent(cs: seq<string>, sub: string) { exists i :: 0 <= i < |cs| && Occurs(cs[i], sub) }

  /** A text without slash occurs in a path exactly if it occurs in one of its components. */
  lemma {:induction false} OccursIffInComponent(s: string, sub: string)
    requires sub != "" && '/' !in sub
    ensures Occurs(s, sub) <==> InComponent(Components(s), sub)
    decreases |s|
  {
    if s != "" {
      if s[0] == '/' {
        assert sub[0] in sub;
        OccursIffInComponent(s[1..], sub);
        OccursInRest(s, sub);
      } else {
        var f := FirstSlash(s);
        var w, r := s[..f], s[f..];
        assert f > 0;
        OccursIffInComponent(r, sub);
        OccursInWordOrRest(s, f, sub);
        InComponentCons(w, Components(r), sub);
      }
    }
  }

  lemma InComponentCons(w: string, cs: seq<string>, sub: string)
    ensures InComponent([w] + cs, sub) <==> Occurs(w, sub) || InComponent(cs, sub)
  {
    var all := [w] + cs;
    assert all[0] == w;
    if i :| 0 <= i < |cs| && Occurs(cs[i], sub) { assert all[i + 1] == cs[i]; }
    if i :| 0 <= i < |all| && Occurs(all[i], sub) { if i > 0 { assert all[i] == cs[i - 1]; } }
  }

  /** A text without slash does not occur across one. */
  lemma NotAcross(s: string, f: nat, sub: string, i: nat)
    requires OccursAt(s, sub, i) && '/' !in sub && f < |s| && s[f] == '/'
    ensures i + |sub| <= f || f < i
  {
  }

  lemma OccursInWordOrRest(s: string, f: nat, sub: string)
    requires f <= |s| && sub != "" && '/' !in sub && (f < |s| ==> s[f] == '/')
    ensures Occurs(s, sub) <==> Occurs(s[..f], sub) || Occurs(s[f..], sub)
  {
    var n := |sub|;
    if i :| OccursAt(s, sub, i) {
      if i + n <= f {
        assert s[..f][i..i + n] == s[i..i + n];
        assert OccursAt(s[..f], sub, i);
      } else {
        NotAcross(s, f, sub, i);
        assert s[f..][i - f..i - f + n] == s[i..i + n];
        assert OccursAt(s[f..], sub, i - f);
      }
    }
    if i :| OccursAt(s[..f], sub, i) {
      assert s[..f][i..i + n] == s[i..i + n];
      assert OccursAt(s, sub, i);
    }
    if i :| OccursAt(s[f..], sub, i) {
      assert s[f..][i..i + n] == s[f + i..f + i + n];
      assert OccursAt(s, sub, f + i);
    }
  }
}
