/**
  The build hook's loop over the resolved file paths. The file system is a map
  from path to text; reading a path fails exactly when it is not in the map,
  and such a failure is caught, leaves everything as it was, and the loop moves
  on to the next path. Writes do not fail.
 */
module Batch {
  import opened Flags
  import opened Bump

  type FileSystem = map<string, string>

  /** What one run leaves behind: the files, `totalChanges`, and the paths written, in order. */
  datatype RunResult = RunResult(files: FileSystem, totalChanges: nat, written: seq<string>)

  /** The loop body writes `path` back: it was read, and its replace call set `hasChange`. */
  predicate Rewrites(m: Mode, fs: FileSystem, path: string) {
    path in fs && Rewrite(m, fs[path]).hasChange
  }

  /** The loop `for (const filePath of filePaths)`, each iteration seeing the writes of the earlier ones. */
  function Run(m: Mode, paths: seq<string>, fs: FileSystem): (r: RunResult)
    ensures r.files.Keys == fs.Keys
    ensures r.totalChanges == |r.written|
    ensures forall p :: p in r.written ==> p in paths && p in fs
    ensures forall p :: p in fs && p !in r.written ==> r.files[p] == fs[p]
    decreases |paths|
  {
    if |paths| == 0 then RunResult(fs, 0, [])
    else
      var path := paths[0];
      if Rewrites(m, fs, path) then
        var rest := Run(m, paths[1..], fs[path := Rewrite(m, fs[path]).content]);
        RunResult(rest.files, rest.totalChanges + 1, [path] + rest.written)
      else
        Run(m, paths[1..], fs)
  }

  /** The whole hook: derive the mode, return early when it is inactive, otherwise run the loop. */
  function BuildStart(args: seq<string>, env: map<string, string>, paths: seq<string>, fs: FileSystem): (r: RunResult)
    ensures "--increase" !in args && "--bump" !in args && "--fresh" !in args
            && !("BUMP" in env && env["BUMP"] == "true") && !("FRESH" in env && env["FRESH"] == "true")
            ==> r == RunResult(fs, 0, [])
    ensures r.totalChanges == |r.written|
    ensures r.files.Keys == fs.Keys
  {
    var m := DeriveMode(args, env);
    if !m.Active() then RunResult(fs, 0, []) else Run(m, paths, fs)
  }

  predicate NoDuplicates(xs: seq<string>) {
    forall i, j :: 0 <= i < j < |xs| ==> xs[i] != xs[j]
  }

  lemma NoDuplicatesTail(xs: seq<string>)
    requires NoDuplicates(xs) && |xs| > 0
    ensures NoDuplicates(xs[1..]) && xs[0] !in xs[1..]
  {
    var tail := xs[1..];
    forall j | 0 <= j < |tail| ensures tail[j] != xs[0] {
      assert tail[j] == xs[j + 1];
    }
  }

  lemma NoDuplicatesCons(x: string, xs: seq<string>)
    requires NoDuplicates(xs) && x !in xs
    ensures NoDuplicates([x] + xs)
  {
    var w := [x] + xs;
    forall i, j | 0 <= i < j < |w| ensures w[i] != w[j] {
      assert w[j] == xs[j - 1];
      if i > 0 {
        assert w[i] == xs[i - 1];
      }
    }
  }

  /** Over distinct paths, no path is written twice. */
  lemma {:induction false} WrittenOnce(m: Mode, paths: seq<string>, fs: FileSystem)
    requires NoDuplicates(paths)
    ensures NoDuplicates(Run(m, paths, fs).written)
    decreases |paths|
  {
    if |paths| > 0 {
      var path := paths[0];
      NoDuplicatesTail(paths);
      if Rewrites(m, fs, path) {
        var fs1 := fs[path := Rewrite(m, fs[path]).content];
        WrittenOnce(m, paths[1..], fs1);
        NoDuplicatesCons(path, Run(m, paths[1..], fs1).written);
      } else {
        WrittenOnce(m, paths[1..], fs);
      }
    }
  }

  /**
    Over distinct paths, a file is written exactly when it was read and its text
    has a match that changes, and what ends up in it is that file's rewritten
    text; so each file's outcome depends on its own text only, not on the
    order of the paths.
   */
  lemma {:induction false} RunOutcome(m: Mode, paths: seq<string>, fs: FileSystem)
    requires NoDuplicates(paths)
    ensures var r := Run(m, paths, fs);
            && (forall p :: p in fs ==> (p in r.written <==> p in paths && Rewrite(m, fs[p]).hasChange))
            && (forall p :: p in r.written ==> r.files[p] == Rewrite(m, fs[p]).content)
    decreases |paths|
  {
    if |paths| > 0 {
      var path := paths[0];
      var tail := paths[1..];
      NoDuplicatesTail(paths);
      assert forall p :: p in paths <==> p == path || p in tail;
      if Rewrites(m, fs, path) {
        RunOutcome(m, tail, fs[path := Rewrite(m, fs[path]).content]);
      } else {
        RunOutcome(m, tail, fs);
      }
    }
  }

  /**
    A path whose read fails changes nothing: the run with it in the list is the
    run without it, so the counter and every other file are unaffected and the
    following paths are still processed.
   */
  lemma {:induction false} MissingPathSkipped(m: Mode, before: seq<string>, path: string, after: seq<string>, fs: FileSystem)
    requires path !in fs
    ensures Run(m, before + [path] + after, fs) == Run(m, before + after, fs)
    decreases |before|
  {
    if |before| == 0 {
      assert before + [path] + after == [path] + after;
      assert ([path] + after)[1..] == after;
      assert before + after == after;
    } else {
      var first := before[0];
      assert (before + [path] + after)[0] == first && (before + after)[0] == first;
      assert (before + [path] + after)[1..] == before[1..] + [path] + after;
      assert (before + after)[1..] == before[1..] + after;
      if Rewrites(m, fs, first) {
        MissingPathSkipped(m, before[1..], path, after, fs[first := Rewrite(m, fs[first]).content]);
      } else {
        MissingPathSkipped(m, before[1..], path, after, fs);
      }
    }
  }

  /** A file whose text the mode would leave alone. */
  predicate Settled(m: Mode, fs: FileSystem, p: string) {
    p in fs && !Rewrite(m, fs[p]).hasChange
  }

  /** When every listed file that exists is settled, a run writes nothing. */
  lemma {:induction false} SettledRunIsQuiet(m: Mode, paths: seq<string>, fs: FileSystem)
    requires forall p :: p in paths && p in fs ==> Settled(m, fs, p)
    ensures Run(m, paths, fs) == RunResult(fs, 0, [])
    decreases |paths|
  {
    if |paths| > 0 {
      assert paths[0] in paths;
      assert forall p :: p in paths[1..] ==> p in paths;
      SettledRunIsQuiet(m, paths[1..], fs);
    }
  }

  /** No-op: with neither switch on, the loop itself would write nothing and count nothing. */
  lemma InactiveRunIsQuiet(m: Mode, paths: seq<string>, fs: FileSystem)
    requires !m.Active()
    ensures Run(m, paths, fs) == RunResult(fs, 0, [])
  {
    forall p | p in paths && p in fs ensures Settled(m, fs, p) {
      InactiveKeepsText(m, fs[p]);
    }
    SettledRunIsQuiet(m, paths, fs);
  }

  /** A settled file stays settled through any run in the same mode: the run never writes it. */
  lemma {:induction false} SettledStaysSettled(m: Mode, paths: seq<string>, fs: FileSystem, p: string)
    requires Settled(m, fs, p)
    ensures p !in Run(m, paths, fs).written
    ensures Settled(m, Run(m, paths, fs).files, p)
    ensures Run(m, paths, fs).files[p] == fs[p]
    decreases |paths|
  {
    if |paths| > 0 {
      var path := paths[0];
      if Rewrites(m, fs, path) {
        assert path != p;
        SettledStaysSettled(m, paths[1..], fs[path := Rewrite(m, fs[path]).content], p);
      } else {
        SettledStaysSettled(m, paths[1..], fs, p);
      }
    }
  }

  /** After a reset run, every listed file that exists is settled. */
  lemma {:induction false} FreshRunSettles(m: Mode, paths: seq<string>, fs: FileSystem)
    requires m.shouldFresh
    ensures forall p :: p in paths && p in fs ==> Settled(m, Run(m, paths, fs).files, p)
    decreases |paths|
  {
    if |paths| > 0 {
      var path := paths[0];
      var fs1 := if Rewrites(m, fs, path) then fs[path := Rewrite(m, fs[path]).content] else fs;
      assert Run(m, paths, fs).files == Run(m, paths[1..], fs1).files;
      FreshRunSettles(m, paths[1..], fs1);
      assert forall p :: p in paths <==> p == path || p in paths[1..];
      if path in fs {
        if Rewrites(m, fs, path) {
          FreshIdempotent(m, fs[path]);
        }
        assert Settled(m, fs1, path);
        SettledStaysSettled(m, paths[1..], fs1, path);
      }
    }
  }

  /** Reset is idempotent over a batch: a second reset run over the same paths writes nothing. */
  lemma FreshRunIdempotent(m: Mode, paths: seq<string>, fs: FileSystem)
    requires m.shouldFresh
    ensures var once := Run(m, paths, fs).files;
            Run(m, paths, once) == RunResult(once, 0, [])
  {
    var once := Run(m, paths, fs).files;
    FreshRunSettles(m, paths, fs);
    SettledRunIsQuiet(m, paths, once);
  }
}
