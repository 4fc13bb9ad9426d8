/** writeLocks: stage every lock under a temporary name, then rename all into place; on a failure
    remove what was published and staged (hack/imagelock/main.go). Any step may fail, and so may
    the removal of any file. */
module Publish {
  import opened Text
  import opened Locks

  // ---------------------------------------------------------------- the directory

  /** A published path, or the n-th staging name the directory handed out. Staging names start
      with a dot and lock file names do not, so the two never meet. */
  datatype FileName = Path(path: string) | Staging(serial: nat)

  datatype Contents = Whole(lock: ImageLock) | Partial | Foreign(bytes: string)

  type Files = map<FileName, Contents>

  datatype StageFault = CreateFails | ChmodFails | WriteFails | CloseFails

  /** What goes wrong in a run: the directory cannot be made, the staging of some outputs fails, the
      renaming of some outputs fails, some files cannot be removed. */
  datatype Faults = Faults(mkdir: bool, stage: map<nat, StageFault>, rename: set<nat>, stuck: set<FileName>)

  predicate AllStaged(f: Faults, n: nat) { forall i: nat :: i < n ==> i !in f.stage }

  /** A run with n outputs succeeds. */
  predicate Succeeds(f: Faults, n: nat) { !f.mkdir && AllStaged(f, n) && forall i: nat :: i < n ==> i !in f.rename }

  function RenamesBeforeFailure(rename: set<nat>, n: nat): (k: nat)
    ensures k <= n && (forall i: nat :: i < k ==> i !in rename) && (k < n ==> k in rename)
  {
    if n == 0 then 0
    else
      var k := RenamesBeforeFailure(rename, n - 1);
      if k < n - 1 || n - 1 in rename then k else n
  }

  /** How many outputs a run renames into place before it fails. */
  function Renamed(f: Faults, n: nat): (k: nat)
    ensures k <= n && (k == n > 0 ==> Succeeds(f, n))
  {
    if f.mkdir || !AllStaged(f, n) then 0 else RenamesBeforeFailure(f.rename, n)
  }

  /** What a name holds, if anything. */
  function At(files: Files, n: FileName): Option<Contents> { if n in files then Some(files[n]) else None }

  /** The directory after all outputs are in place; a later output wins a shared path. */
  function PublishAll(files: Files, outputs: seq<Output>): Files {
    if outputs == [] then files
    else
      var last := outputs[|outputs| - 1];
      PublishAll(files, outputs[..|outputs| - 1])[Path(last.path) := Whole(last.lock)]
  }

  predicate IsPathOf(n: FileName, outputs: seq<Output>) { exists i :: 0 <= i < |outputs| && n == Path(outputs[i].path) }

  lemma {:induction false} PublishesOnlyPaths(files: Files, outputs: seq<Output>, n: FileName)
    ensures IsPathOf(n, outputs) ==> n in PublishAll(files, outputs)
    ensures !IsPathOf(n, outputs) ==> At(files, n) == At(PublishAll(files, outputs), n)
  {
    if outputs != [] {
      var k := |outputs| - 1;
      PublishesOnlyPaths(files, outputs[..k], n);
      PathStep(outputs, k);
      assert outputs[..k + 1] == outputs;
    }
  }

  /** Directories that agree at every name are equal. */
  lemma SameFiles(f: Files, g: Files)
    requires forall n :: At(f, n) == At(g, n)
    ensures f == g
  {
    forall n: FileName ensures n in f <==> n in g { assert At(f, n).Some? <==> At(g, n).Some?; }
    forall n | n in f ensures f[n] == g[n] { assert At(f, n) == Some(f[n]) && At(g, n) == Some(g[n]); }
  }

  predicate DistinctPaths(outputs: seq<Output>) {
    forall i, j :: 0 <= i < j < |outputs| ==> outputs[i].path != outputs[j].path
  }

  predicate Survives(files: Files, o: Output) { At(files, Path(o.path)) == Some(Whole(o.lock)) }

  lemma {:induction false} LastOutputWins(files: Files, outputs: seq<Output>, i: nat)
    requires i < |outputs| && forall j :: i < j < |outputs| ==> outputs[j].path != outputs[i].path
    ensures Survives(PublishAll(files, outputs), outputs[i])
  {
    if i < |outputs| - 1 { LastOutputWins(files, outputs[..|outputs| - 1], i); }
  }

  /** Every lock survives publication exactly when the paths are distinct. */
  lemma AllSurviveIffDistinctPaths(files: Files, outputs: seq<Output>)
    requires forall i, j :: 0 <= i < j < |outputs| ==> outputs[i].lock != outputs[j].lock
    ensures (forall i :: 0 <= i < |outputs| ==> Survives(PublishAll(files, outputs), outputs[i])) <==>
            DistinctPaths(outputs)
  {
    if DistinctPaths(outputs) {
      forall i | 0 <= i < |outputs|
        ensures Survives(PublishAll(files, outputs), outputs[i])
      {
        LastOutputWins(files, outputs, i);
      }
    } else {
      var i, j :| 0 <= i < j < |outputs| && outputs[i].path == outputs[j].path;
      assert outputs[i].lock != outputs[j].lock;
      assert !(Survives(PublishAll(files, outputs), outputs[i]) && Survives(PublishAll(files, outputs), outputs[j]));
    }
  }

  // ---------------------------------------------------------------- what a failed run may leave

  /** After a failure that had published the first k outputs: outside the files whose removal
      failed, those paths are gone and everything else is as before. */
  ghost predicate RolledBack(before: Files, after: Files, outputs: seq<Output>, k: nat, stuck: set<FileName>)
    requires k <= |outputs|
  {
    forall n :: n !in stuck ==>
        if IsPathOf(n, outputs[..k]) then At(after, n) == None else At(before, n) == At(after, n)
  }

  /** What a run may leave: all outputs in place, or those it had renamed rolled back. */
  ghost predicate Outcome(before: Files, after: Files, outputs: seq<Output>, f: Faults) {
    if Succeeds(f, |outputs|) then after == PublishAll(before, outputs)
    else RolledBack(before, after, outputs, Renamed(f, |outputs|), f.stuck)
  }

  /** Rolling back without trouble. */
  function Without(before: Files, outputs: seq<Output>): Files {
    map n | n in before && !IsPathOf(n, outputs) :: before[n]
  }

  lemma RolledBackIsWithout(before: Files, after: Files, outputs: seq<Output>, k: nat)
    requires k <= |outputs|
    ensures RolledBack(before, after, outputs, k, {}) <==> after == Without(before, outputs[..k])
  {
    var w := Without(before, outputs[..k]);
    assert forall n :: At(w, n) == if IsPathOf(n, outputs[..k]) then None else At(before, n);
    if RolledBack(before, after, outputs, k, {}) {
      forall n: FileName ensures At(w, n) == At(after, n) { assert n !in {}; }
      SameFiles(w, after);
    }
  }

  lemma WithoutIsBeforeIff(before: Files, outputs: seq<Output>, k: nat)
    requires k <= |outputs|
    ensures Without(before, outputs[..k]) == before <==> forall i :: 0 <= i < k ==> Path(outputs[i].path) !in before
  {
    var w := Without(before, outputs[..k]);
    if i :| 0 <= i < k && Path(outputs[i].path) in before {
      assert IsPathOf(Path(outputs[i].path), outputs[..k]) by { assert outputs[..k][i] == outputs[i]; }
      assert Path(outputs[i].path) !in w;
    } else {
      assert forall n :: n in before ==> !IsPathOf(n, outputs[..k]);
    }
  }

  /** A failed run that could remove its files restores the directory if and only if none of the
      paths it had renamed to existed before: an earlier lock under such a path is gone. */
  lemma FailedRunRestoresIff(before: Files, after: Files, outputs: seq<Output>, f: Faults)
    requires f.stuck == {} && !Succeeds(f, |outputs|) && Outcome(before, after, outputs, f)
    ensures after == before <==> forall i :: 0 <= i < Renamed(f, |outputs|) ==> Path(outputs[i].path) !in before
  {
    RolledBackIsWithout(before, after, outputs, Renamed(f, |outputs|));
    WithoutIsBeforeIff(before, outputs, Renamed(f, |outputs|));
  }

  /** Publication is atomic, in that every failed run restores the directory, if and only if no
      output but the last replaces a file. */
  lemma PublicationAtomicIff(before: Files, outputs: seq<Output>)
    ensures (forall f: Faults, after ::
               f.stuck == {} && !Succeeds(f, |outputs|) && Outcome(before, after, outputs, f) ==> after == before)
            <==> forall i :: 0 <= i < |outputs| - 1 ==> Path(outputs[i].path) !in before
  {
    var n := |outputs|;
    if forall i :: 0 <= i < n - 1 ==> Path(outputs[i].path) !in before {
      forall f: Faults, after | f.stuck == {} && !Succeeds(f, n) && Outcome(before, after, outputs, f)
        ensures after == before
      {
        FailedRunRestoresIff(before, after, outputs, f);
      }
    } else {
      var i :| 0 <= i < n - 1 && Path(outputs[i].path) in before;
      var f := Faults(false, map[], {n - 1}, {});
      var after := Without(before, outputs[..n - 1]);
      assert Renamed(f, n) == n - 1 && n - 1 in f.rename;
      RolledBackIsWithout(before, after, outputs, n - 1);
      assert Outcome(before, after, outputs, f);
      FailedRunRestoresIff(before, after, outputs, f);
    }
  }

  /** A lock of an earlier release lost by a failed run: it was replaced by the first output and then
      removed, because the second could not be renamed. */
  lemma EarlierLockCanBeLost(earlier: ImageLock, first: Output, second: Output, after: Files)
    requires first.path != second.path
    requires Outcome(map[Path(first.path) := Whole(earlier)], after, [first, second], Faults(false, map[], {1}, {}))
    ensures after == map[]
  {
    var outputs, f := [first, second], Faults(false, map[], {1}, {});
    assert 1 in f.rename && !Succeeds(f, 2) && Renamed(f, 2) == 1;
    RolledBackIsWithout(map[Path(first.path) := Whole(earlier)], after, outputs, 1);
    assert outputs[..1] == [first] && [first][0] == first && IsPathOf(Path(first.path), [first]);
  }

  // ---------------------------------------------------------------- the run

  class OutputDirectory {
    var files: Files
    var serials: nat

    /** Staging names are handed out in order, so the next one is new. */
    ghost predicate Valid() reads this { forall n :: n in files && n.Staging? ==> n.serial < serials }

    /** os.Remove with its error ignored. */
    method Remove(n: FileName, stuck: set<FileName>)
      requires Valid()
      modifies this`files
      ensures Valid() && files == if n in stuck then old(files) else old(files) - {n}
    {
      if n !in stuck { files := files - {n}; }
    }

    /** Remove the staged files from position lo up to hi. */
    method CleanUp(base: nat, lo: nat, hi: nat, stuck: set<FileName>)
      requires Valid() && lo <= hi
      modifies this`files
      ensures Valid()
      ensures forall n :: n !in stuck ==>
              if StagedIn(n, base, lo, hi) then At(files, n) == None else At(old(files), n) == At(files, n)
    {
      for i := lo to hi
        invariant Valid()
        invariant forall n :: n !in stuck ==>
                  if StagedIn(n, base, lo, i) then At(files, n) == None else At(old(files), n) == At(files, n)
      {
        Remove(Staging(base + i), stuck);
      }
    }

    /** Remove the published paths. */
    method Unpublish(outputs: seq<Output>, k: nat, stuck: set<FileName>)
      requires Valid() && k <= |outputs|
      modifies this`files
      ensures Valid()
      ensures forall n :: n !in stuck ==>
              if IsPathOf(n, outputs[..k]) then At(files, n) == None else At(old(files), n) == At(files, n)
    {
      for i := 0 to k
        invariant Valid()
        invariant forall n :: n !in stuck ==>
                  if IsPathOf(n, outputs[..i]) then At(files, n) == None else At(old(files), n) == At(files, n)
      {
        PathStep(outputs, i);
        Remove(Path(outputs[i].path), stuck);
      }
    }

    /** Create, chmod, write and close one staging file. */
    method StageOne(o: Output, fault: Option<StageFault>) returns (ok: bool, created: bool)
      requires Valid()
      modifies this
      ensures Valid() && (ok <==> fault == None) && (created <==> fault != Some(CreateFails))
      ensures serials == old(serials) + if created then 1 else 0
      ensures !created ==> files == old(files)
      ensures forall n :: n != Staging(old(serials)) ==> At(old(files), n) == At(files, n)
      ensures ok ==> At(files, Staging(old(serials))) == Some(Whole(o.lock))
    {
      if fault == Some(CreateFails) { return false, false; }
      created := true;
      files := files[Staging(serials) := Partial];
      serials := serials + 1;
      if fault == Some(ChmodFails) || fault == Some(WriteFails) { return false, true; }
      files := files[Staging(serials - 1) := Whole(o.lock)];
      ok := fault.None?;
    }

    /** The staging loop: all outputs staged under fresh names, or nothing changed. */
    method StageAll(outputs: seq<Output>, f: Faults) returns (ok: bool)
      requires Valid()
      modifies this
      ensures Valid() && (ok <==> AllStaged(f, |outputs|))
      ensures ok ==> Midway(old(files), files, outputs, old(serials), 0)
      ensures !ok ==> forall n :: n !in f.stuck ==> At(old(files), n) == At(files, n)
    {
      var base := serials;
      for i := 0 to |outputs|
        invariant Valid() && serials == base + i
        invariant AllStaged(f, i)
        invariant forall n :: !StagedIn(n, base, 0, i) ==> At(old(files), n) == At(files, n)
        invariant forall n :: StagedIn(n, base, 0, i) ==> At(files, n) == Some(Whole(outputs[n.serial - base].lock))
      {
        var created;
        ok, created := StageOne(outputs[i], if i in f.stage then Some(f.stage[i]) else None);
        if !ok {
          CleanUp(base, 0, if created then i + 1 else i, f.stuck);
          return;
        }
      }
      ok := true;
      assert outputs[..0] == [];
    }

    /** The publishing loop, with rollback at the first rename that fails. */
    method PublishStaged(before: Files, outputs: seq<Output>, base: nat, f: Faults) returns (ok: bool)
      requires Valid() && Midway(before, files, outputs, base, 0)
      requires forall n :: StagedIn(n, base, 0, |outputs|) ==> At(before, n) == None
      modifies this`files
      ensures Valid() && (ok <==> RenamesBeforeFailure(f.rename, |outputs|) == |outputs|)
      ensures ok ==> Midway(before, files, outputs, base, |outputs|)
      ensures !ok ==> RolledBack(before, files, outputs, RenamesBeforeFailure(f.rename, |outputs|), f.stuck)
    {
      for i := 0 to |outputs|
        invariant forall j: nat :: j < i ==> j !in f.rename
        invariant Valid() && Midway(before, files, outputs, base, i)
      {
        if i in f.rename {
          assert RenamesBeforeFailure(f.rename, |outputs|) == i;
          ghost var was := files;
          Unpublish(outputs, i, f.stuck);
          ghost var mid := files;
          CleanUp(base, i, |outputs|, f.stuck);
          RollsBack(before, was, mid, files, outputs, base, i, f.stuck);
          return false;
        }
        assert StagedIn(Staging(base + i), base, i, |outputs|);
        MoveStep(before, files, outputs, base, i);
        files := (files - {Staging(base + i)})[Path(outputs[i].path) := files[Staging(base + i)]];
      }
      ok := true;
    }

    /** All outputs are published and no staging file is left, or the run failed: then the outputs it
        had renamed and all staging files are gone, except files whose removal failed, and everything
        else is untouched. */
    method WriteLocks(outputs: seq<Output>, f: Faults) returns (ok: bool)
      requires Valid()
      modifies this
      ensures Valid() && (ok <==> Succeeds(f, |outputs|))
      ensures Outcome(old(files), files, outputs, f)
    {
      if f.mkdir { return false; }
      var before, base := files, serials;
      ok := StageAll(outputs, f);
      if !ok { return; }
      ok := PublishStaged(before, outputs, base, f);
      if ok { AllMoved(before, files, outputs, base); }
    }
  }

  predicate StagedIn(n: FileName, base: nat, lo: nat, hi: nat) { n.Staging? && base + lo <= n.serial < base + hi }

  /** The first i outputs are in place, the others staged. */
  ghost predicate Midway(before: Files, now: Files, outputs: seq<Output>, base: nat, i: nat)
    requires i <= |outputs|
  {
    && (forall n :: StagedIn(n, base, i, |outputs|) ==> At(now, n) == Some(Whole(outputs[n.serial - base].lock)))
    && (forall n :: StagedIn(n, base, 0, i) ==> At(now, n) == None)
    && (forall n :: !StagedIn(n, base, 0, |outputs|) ==> At(PublishAll(before, outputs[..i]), n) == At(now, n))
  }

  lemma PathStep(outputs: seq<Output>, i: nat)
    requires i < |outputs|
    ensures forall n :: IsPathOf(n, outputs[..i + 1]) <==> IsPathOf(n, outputs[..i]) || n == Path(outputs[i].path)
  {
    forall n: FileName
      ensures IsPathOf(n, outputs[..i + 1]) <==> IsPathOf(n, outputs[..i]) || n == Path(outputs[i].path)
    {
      if IsPathOf(n, outputs[..i + 1]) && n != Path(outputs[i].path) {
        var k :| 0 <= k < i + 1 && n == Path(outputs[..i + 1][k].path);
        assert n == Path(outputs[..i][k].path);
      }
      if IsPathOf(n, outputs[..i]) {
        var k :| 0 <= k < i && n == Path(outputs[..i][k].path);
        assert n == Path(outputs[..i + 1][k].path);
      }
      if n == Path(outputs[i].path) { assert n == Path(outputs[..i + 1][i].path); }
    }
  }

  lemma MoveStep(before: Files, now: Files, outputs: seq<Output>, base: nat, i: nat)
    requires i < |outputs| && Midway(before, now, outputs, base, i) && Staging(base + i) in now
    ensures Midway(before, (now - {Staging(base + i)})[Path(outputs[i].path) := now[Staging(base + i)]], outputs, base,
            i + 1)
  {
    var staged, path := Staging(base + i), Path(outputs[i].path);
    var next := (now - {staged})[path := now[staged]];
    assert outputs[..i + 1][..i] == outputs[..i];
    assert StagedIn(staged, base, i, |outputs|) && At(now, staged) == Some(now[staged]);
    forall n: FileName
      ensures At(next, n) == if n == path then Some(Whole(outputs[i].lock)) else if n == staged then None
                else At(now, n)
    {
    }
  }

  lemma RollsBack(before: Files, was: Files, mid: Files, after: Files, outputs: seq<Output>, base: nat, i: nat,
      stuck: set<FileName>)
    requires i < |outputs| && Midway(before, was, outputs, base, i)
    requires forall n :: StagedIn(n, base, 0, |outputs|) ==> At(before, n) == None
    requires forall n :: n !in stuck ==>
             if IsPathOf(n, outputs[..i]) then At(mid, n) == None else At(was, n) == At(mid, n)
    requires forall n :: n !in stuck ==>
             if StagedIn(n, base, i, |outputs|) then At(after, n) == None else At(mid, n) == At(after, n)
    ensures RolledBack(before, after, outputs, i, stuck)
  {
    forall n | n !in stuck
      ensures if IsPathOf(n, outputs[..i]) then At(after, n) == None else At(before, n) == At(after, n)
    {
      PublishesOnlyPaths(before, outputs[..i], n);
    }
  }

  lemma AllMoved(before: Files, now: Files, outputs: seq<Output>, base: nat)
    requires Midway(before, now, outputs, base, |outputs|) && forall n :: StagedIn(n, base, 0, |outputs|) ==>
             At(before, n) == None
    ensures now == PublishAll(before, outputs)
  {
    assert outputs[..|outputs|] == outputs;
    forall n: FileName
      ensures At(PublishAll(before, outputs), n) == At(now, n)
    {
      PublishesOnlyPaths(before, outputs, n);
    }
    SameFiles(now, PublishAll(before, outputs));
  }
}
