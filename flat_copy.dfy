/**
 * The loop the test-results and reproducibility collectors share: each source file is copied, in
 * order, into one destination directory under its own file name. Sources from different folders
 * that share a file name land on the same target, and the later copy wins. A source that is its
 * own target cannot be re-created while it is open for reading, and ends the loop.
 */
module FlatCopy {
  import opened Wrappers
  import opened Text
  import opened FileSystem
  import opened Exceptions
  import opened Evidence

  /** `Path.Combine(destinationDir, Path.GetFileName(source))`. */
  function Target(destinationDir: Path, source: Path): Path
  {
    Combine(destinationDir, FileName(source))
  }

  /** A file copied from any folder keeps its own name in the destination directory. */
  lemma TargetOfSegment(destinationDir: Path, folder: Path, name: Path)
    requires Segment(name)
    ensures Target(destinationDir, Combine(folder, name)) == Combine(destinationDir, name)
  {
    FileNameOfCombine(folder, name);
  }

  /** The exception `File.OpenRead` throws for a file that is not there. */
  function NotFound(source: Path): Exception
  {
    FileNotFound("Could not find file '" + source + "'.", Some(source))
  }

  /** The target rule of a copy loop into one destination directory. */
  function TargetIn(destinationDir: Path): Path -> Path
  {
    source => Target(destinationDir, source)
  }

  /**
   * The copies made in order, each source to `target(source)`; the first source that is gone, or
   * that is its own target, ends the loop with its exception. The collectors use `target == TargetIn(destinationDir)`; the
   * properties below hold for any target rule.
   */
  function CopyEach(fs: FileSystem, sources: seq<Path>, target: Path -> Path): (r: Step)
    ensures fs.files.Keys <= r.fs.files.Keys && r.fs.dirs == fs.dirs
    decreases |sources|
  {
    if sources == [] then Step(Completed, fs)
    else
      var before := CopyEach(fs, sources[..|sources| - 1], target);
      var source := sources[|sources| - 1];
      if before.outcome.Threw? then before
      else if source !in before.fs.files then Step(Threw(NotFound(source)), before.fs)
      else if target(source) == source then Step(Threw(FileInUse(source)), before.fs)
      else Step(Completed, CopyFile(before.fs, source, target(source)))
  }

  method CopyFiles(fs: FileSystem, sources: seq<Path>, destinationDir: Path) returns (outcome: Outcome, fs': FileSystem)
    ensures Step(outcome, fs') == CopyEach(fs, sources, TargetIn(destinationDir))
  {
    fs' := fs;
    outcome := Completed;
    var i := 0;
    while i < |sources|
      invariant 0 <= i <= |sources|
      invariant CopyEach(fs, sources[..i], TargetIn(destinationDir)) == Step(Completed, fs')
    {
      var source := sources[i];
      assert sources[..i + 1][..i] == sources[..i];
      if source !in fs'.files {
        outcome := Threw(NotFound(source));
        CopyEachStopsAtFailure(fs, sources, TargetIn(destinationDir), i + 1);
        return;
      }
      if Target(destinationDir, source) == source {
        outcome := Threw(FileInUse(source));
        CopyEachStopsAtFailure(fs, sources, TargetIn(destinationDir), i + 1);
        return;
      }
      fs' := CopyFile(fs', source, Target(destinationDir, source));
      i := i + 1;
    }
    assert sources[..i] == sources;
  }

  /** Once a copy has failed, the later sources are never looked at. */
  lemma {:induction false} CopyEachStopsAtFailure(fs: FileSystem, sources: seq<Path>, target: Path -> Path, k: nat)
    requires k <= |sources|
    requires CopyEach(fs, sources[..k], target).outcome.Threw?
    ensures CopyEach(fs, sources, target) == CopyEach(fs, sources[..k], target)
    decreases |sources| - k
  {
    if k < |sources| {
      var init := sources[..|sources| - 1];
      assert init[..k] == sources[..k];
      CopyEachStopsAtFailure(fs, init, target, k);
    } else {
      assert sources[..k] == sources;
    }
  }

  /**
   * When every source is there, the loop completes exactly when no source is its own target, and
   * otherwise fails at a source that is.
   */
  lemma {:induction false} CopyEachCompletes(fs: FileSystem, sources: seq<Path>, target: Path -> Path)
    requires forall i :: 0 <= i < |sources| ==> sources[i] in fs.files
    ensures var r := CopyEach(fs, sources, target);
      && (r.outcome == Completed <==> forall i :: 0 <= i < |sources| ==> target(sources[i]) != sources[i])
      && (r.outcome.Threw? ==>
            exists i :: 0 <= i < |sources| && target(sources[i]) == sources[i] && r.outcome == Threw(FileInUse(sources[i])))
    decreases |sources|
  {
    if sources != [] {
      var n := |sources| - 1;
      var init := sources[..n];
      CopyEachCompletes(fs, init, target);
      var before := CopyEach(fs, init, target);
      if before.outcome.Threw? {
        var i :| 0 <= i < |init| && target(init[i]) == init[i] && before.outcome == Threw(FileInUse(init[i]));
        assert sources[i] == init[i];
      } else {
        assert sources[n] in before.fs.files;
        if target(sources[n]) != sources[n] {
          assert forall i :: 0 <= i < n ==> sources[i] == init[i];
        }
      }
    }
  }

  /** A path that is no source's target keeps its contents, whether the loop completes or not. */
  lemma {:induction false} CopyEachFrame(fs: FileSystem, sources: seq<Path>, target: Path -> Path, p: Path)
    requires forall i :: 0 <= i < |sources| ==> target(sources[i]) != p
    ensures SameAt(fs, CopyEach(fs, sources, target).fs, p)
    decreases |sources|
  {
    if sources != [] {
      CopyEachFrame(fs, sources[..|sources| - 1], target, p);
    }
  }

  /** No source is overwritten by the copies. */
  predicate SourcesAreNotTargets(sources: seq<Path>, target: Path -> Path)
  {
    forall i, j :: 0 <= i < |sources| && 0 <= j < |sources| ==> sources[i] != target(sources[j])
  }

  /** Source `i` is the last one copied to its target. */
  predicate LastWithItsName(sources: seq<Path>, target: Path -> Path, i: int)
    requires 0 <= i < |sources|
  {
    forall j :: i < j < |sources| ==> target(sources[j]) != target(sources[i])
  }

  /** The target of each source holds the bytes of the last source with that target. */
  lemma {:induction false} CopyEachLastWins(fs: FileSystem, sources: seq<Path>, target: Path -> Path, i: nat)
    requires forall k :: 0 <= k < |sources| ==> sources[k] in fs.files
    requires SourcesAreNotTargets(sources, target)
    requires i < |sources| && LastWithItsName(sources, target, i)
    ensures var r := CopyEach(fs, sources, target);
      target(sources[i]) in r.fs.files && r.fs.files[target(sources[i])] == fs.files[sources[i]]
    decreases |sources|
  {
    var n := |sources| - 1;
    var init := sources[..n];
    PrefixKeepsAssumptions(fs, sources, target, i);
    CopyEachCompletes(fs, init, target);
    CopyEachFrame(fs, init, target, sources[n]);
    if i < n {
      CopyEachFrame(fs, init, target, sources[i]);
      CopyEachLastWins(fs, init, target, i);
    }
  }

  /** The assumptions of CopyEachLastWins hold for all but the last source. */
  lemma PrefixKeepsAssumptions(fs: FileSystem, sources: seq<Path>, target: Path -> Path, i: nat)
    requires forall k :: 0 <= k < |sources| ==> sources[k] in fs.files
    requires SourcesAreNotTargets(sources, target)
    requires i < |sources| && LastWithItsName(sources, target, i)
    ensures var init := sources[..|sources| - 1];
      && (forall k :: 0 <= k < |init| ==> init[k] in fs.files)
      && (forall k :: 0 <= k < |init| ==> target(init[k]) != sources[|sources| - 1])
      && SourcesAreNotTargets(init, target)
      && (i < |init| ==> LastWithItsName(init, target, i))
      && (i < |init| ==> forall k :: 0 <= k < |init| ==> target(init[k]) != sources[i])
  {
  }
}
