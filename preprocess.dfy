/**
 * Batch frame preprocessing (preprocess_frames.py): enhancing every frame of a
 * directory into an output directory, validating the frames' resolutions, and the
 * `WIDTHxHEIGHT` argument.
 *
 * The file system is a set of parameters: whether the frame directory exists, the paths
 * `glob` returns (in whatever order), what `enhance` finds for each frame, and what
 * opening each frame yields.
 */
module Preprocess {
  import opened Wrappers
  import Text
  import Decimal
  import Paths
  import Ordering
  import Enhance

  // ---------------------------------------------------------------------
  // preprocess_frames

  /** A `failed_frames` entry: the frame's file name and the error message. */
  datatype Failure = Failure(frame: string, error: string)

  /** The result dictionary of `preprocess_frames`. */
  datatype PreprocessResult =
    | PreprocessError(code: string, message: string)
    | Preprocessed(status: string, code: string, message: string, enhancedFrames: seq<string>,
                   failedFrames: seq<Failure>, outputDirectory: string, totalFrames: nat,
                   successCount: nat, failureCount: nat)

  /** What `preprocess_frames` returns, and the output directory it created, if any. */
  datatype Preprocessing = Preprocessing(result: PreprocessResult, createdDir: Option<string>)

  /** The fixed inputs of the per-frame loop. */
  datatype Job = Job(useGimp: bool, outDir: string, preset: string, operations: Option<Enhance.Ops>,
                     envFor: string -> Enhance.Env)

  /** Each frame is written to the output directory under its own file name. */
  function OutputPathFor(outDir: string, path: string): string
  {
    Paths.Join(outDir, Paths.Basename(path))
  }

  /** What `enhance` returns for one frame. */
  function FrameResult(job: Job, path: string): Enhance.EnhanceResult
  {
    Enhance.EnhanceOutcome(job.useGimp, path, OutputPathFor(job.outDir, path), job.preset, job.operations,
                           job.envFor(path)).result
  }

  /** The per-frame results of a job, as one function value. */
  function FrameResults(job: Job): string -> Enhance.EnhanceResult
  {
    path => FrameResult(job, path)
  }

  /** The output paths of the frames whose result is "ok", in frame order. */
  function EnhancedOf(outDir: string, files: seq<string>, results: string -> Enhance.EnhanceResult): seq<string>
  {
    if files == [] then []
    else
      var last := files[|files| - 1];
      EnhancedOf(outDir, files[..|files| - 1], results)
      + (if results(last).status == "ok" then [OutputPathFor(outDir, last)] else [])
  }

  /** The failures, in frame order. */
  function FailedOf(files: seq<string>, results: string -> Enhance.EnhanceResult): seq<Failure>
  {
    if files == [] then []
    else
      var last := files[|files| - 1];
      FailedOf(files[..|files| - 1], results)
      + (if results(last).status == "ok" then [] else [Failure(Paths.Basename(last), results(last).message)])
  }

  /** The output directory: the one given, else the frame directory with `_enhanced` appended. */
  function OutputDirectory(frameDirectory: string, outputDirectory: Option<string>): string
  {
    outputDirectory.GetOr(frameDirectory + "_enhanced")
  }

  /** `preprocess_frames(frame_directory, output_directory, preset, operations, pattern)` as a value. */
  function PreprocessOutcome(useGimp: bool, frameDirectory: string, outputDirectory: Option<string>,
                             preset: string, operations: Option<Enhance.Ops>, pattern: string,
                             dirExists: bool, matches: seq<string>, envFor: string -> Enhance.Env): Preprocessing
  {
    if !dirExists then
      Preprocessing(PreprocessError("directory_not_found", "Directory not found: " + frameDirectory), None)
    else
      var outDir := OutputDirectory(frameDirectory, outputDirectory);
      var files := Ordering.Sort(matches);
      if files == [] then
        Preprocessing(PreprocessError("no_frames", "No frames found matching pattern: " + pattern), Some(outDir))
      else
        var results := FrameResults(Job(useGimp, outDir, preset, operations, envFor));
        var enhanced, failed := EnhancedOf(outDir, files, results), FailedOf(files, results);
        Preprocessing(
          Preprocessed(if enhanced != [] then "ok" else "error", if enhanced != [] then "success" else "all_failed",
                       "Enhanced " + Decimal.NatToString(|enhanced|) + " frames", enhanced, failed, outDir,
                       |files|, |enhanced|, |failed|),
          Some(outDir))
  }

  /** Every frame lands in one of the two lists, so the counts add up. */
  lemma {:induction false} PartitionCount(outDir: string, files: seq<string>, results: string -> Enhance.EnhanceResult)
    ensures |EnhancedOf(outDir, files, results)| + |FailedOf(files, results)| == |files|
  {
    if files != [] {
      PartitionCount(outDir, files[..|files| - 1], results);
    }
  }

  /** Every frame whose result is "ok" appears in `enhanced_frames` as its output path. */
  lemma {:induction false} EnhancedHas(outDir: string, files: seq<string>, results: string -> Enhance.EnhanceResult, i: nat)
    requires i < |files| && results(files[i]).status == "ok"
    ensures OutputPathFor(outDir, files[i]) in EnhancedOf(outDir, files, results)
  {
    var front := files[..|files| - 1];
    if i < |front| {
      EnhancedHas(outDir, front, results, i);
      assert files[i] == front[i];
    }
  }

  /** Every entry of `enhanced_frames` is the output path of a frame whose result is "ok". */
  lemma {:induction false} EnhancedOnly(outDir: string, files: seq<string>, results: string -> Enhance.EnhanceResult, p: string)
    requires p in EnhancedOf(outDir, files, results)
    ensures exists i :: 0 <= i < |files| && results(files[i]).status == "ok" && p == OutputPathFor(outDir, files[i])
  {
    var front, last := files[..|files| - 1], files[|files| - 1];
    if p in EnhancedOf(outDir, front, results) {
      EnhancedOnly(outDir, front, results, p);
      var i :| 0 <= i < |front| && results(front[i]).status == "ok" && p == OutputPathFor(outDir, front[i]);
      assert files[i] == front[i];
    } else {
      assert files[|files| - 1] == last;
    }
  }

  /** An enhanced frame appears in `enhanced_frames` as its output path, and nothing else does. */
  lemma EnhancedIff(outDir: string, files: seq<string>, results: string -> Enhance.EnhanceResult, p: string)
    ensures p in EnhancedOf(outDir, files, results) <==>
      exists i :: 0 <= i < |files| && results(files[i]).status == "ok" && p == OutputPathFor(outDir, files[i])
  {
    if p in EnhancedOf(outDir, files, results) {
      EnhancedOnly(outDir, files, results, p);
    }
    if exists i :: 0 <= i < |files| && results(files[i]).status == "ok" && p == OutputPathFor(outDir, files[i]) {
      var i :| 0 <= i < |files| && results(files[i]).status == "ok" && p == OutputPathFor(outDir, files[i]);
      EnhancedHas(outDir, files, results, i);
    }
  }

  /** Every frame whose result is not "ok" appears in `failed_frames` with its file name and message. */
  lemma {:induction false} FailedHas(files: seq<string>, results: string -> Enhance.EnhanceResult, i: nat)
    requires i < |files| && results(files[i]).status != "ok"
    ensures Failure(Paths.Basename(files[i]), results(files[i]).message) in FailedOf(files, results)
  {
    var front := files[..|files| - 1];
    if i < |front| {
      FailedHas(front, results, i);
      assert files[i] == front[i];
    }
  }

  /** Every entry of `failed_frames` belongs to a frame whose result is not "ok". */
  lemma {:induction false} FailedOnly(files: seq<string>, results: string -> Enhance.EnhanceResult, f: Failure)
    requires f in FailedOf(files, results)
    ensures exists i :: (0 <= i < |files| && results(files[i]).status != "ok" &&
                         f == Failure(Paths.Basename(files[i]), results(files[i]).message))
  {
    var front, last := files[..|files| - 1], files[|files| - 1];
    if f in FailedOf(front, results) {
      FailedOnly(front, results, f);
      var i :| 0 <= i < |front| && results(front[i]).status != "ok" &&
        f == Failure(Paths.Basename(front[i]), results(front[i]).message);
      assert files[i] == front[i];
    } else {
      assert files[|files| - 1] == last;
    }
  }

  /** A failed frame appears in `failed_frames` as its file name and message, and nothing else does. */
  lemma FailedIff(files: seq<string>, results: string -> Enhance.EnhanceResult, f: Failure)
    ensures f in FailedOf(files, results) <==>
      exists i :: 0 <= i < |files| && results(files[i]).status != "ok" &&
        f == Failure(Paths.Basename(files[i]), results(files[i]).message)
  {
    if f in FailedOf(files, results) {
      FailedOnly(files, results, f);
    }
    if exists i :: 0 <= i < |files| && results(files[i]).status != "ok" &&
         f == Failure(Paths.Basename(files[i]), results(files[i]).message) {
      var i :| 0 <= i < |files| && results(files[i]).status != "ok" &&
        f == Failure(Paths.Basename(files[i]), results(files[i]).message);
      FailedHas(files, results, i);
    }
  }

  /**
   * `preprocess_frames` reports a missing directory without creating anything; otherwise
   * it creates the output directory (the frame directory plus `_enhanced` unless given),
   * reports `no_frames` when nothing matches, and else reports status "ok" exactly when
   * at least one frame was enhanced ("error" with `all_failed` otherwise), with counts
   * that add up to the number of frames.
   */
  lemma PreprocessFacts(useGimp: bool, frameDirectory: string, outputDirectory: Option<string>,
                        preset: string, operations: Option<Enhance.Ops>, pattern: string,
                        dirExists: bool, matches: seq<string>, envFor: string -> Enhance.Env)
    ensures var p := PreprocessOutcome(useGimp, frameDirectory, outputDirectory, preset, operations, pattern,
                                       dirExists, matches, envFor);
      && (!dirExists <==> p.createdDir.None?)
      && (!dirExists ==> p.result == PreprocessError("directory_not_found", "Directory not found: " + frameDirectory))
      && (dirExists ==> p.createdDir == Some(OutputDirectory(frameDirectory, outputDirectory)))
      && (dirExists && matches == [] ==> p.result.PreprocessError? && p.result.code == "no_frames")
      && (p.result.Preprocessed? ==>
            && p.result.totalFrames == |matches| >= 1
            && p.result.successCount + p.result.failureCount == p.result.totalFrames
            && p.result.successCount == |p.result.enhancedFrames|
            && p.result.failureCount == |p.result.failedFrames|
            && (p.result.status == "ok" <==> p.result.successCount > 0)
            && (p.result.status != "ok" ==> p.result.status == "error" && p.result.code == "all_failed"))
  {
    if dirExists {
      var files := Ordering.Sort(matches);
      if matches == [] {
        assert files == [];
      } else {
        assert |files| == |matches|;
        var outDir := OutputDirectory(frameDirectory, outputDirectory);
        PartitionCount(outDir, files, FrameResults(Job(useGimp, outDir, preset, operations, envFor)));
      }
    }
  }

  /** Frames are taken in ascending file-name order: the list processed is `matches` sorted. */
  lemma FramesSorted(matches: seq<string>)
    ensures Ordering.Sorted(Ordering.Sort(matches))
    ensures multiset(Ordering.Sort(matches)) == multiset(matches)
  {
  }

  // ---------------------------------------------------------------------
  // validate_frames

  datatype Resolution = Resolution(width: int, height: int)

  /** What opening a frame yields: its size, or the error raised. */
  datatype FrameOpen = Readable(size: Resolution) | Unreadable(error: string)

  datatype Issue =
    | WrongResolution(frame: string, expected: Resolution, actual: Resolution)
    | CorruptOrUnreadable(frame: string, error: string)
    | InconsistentResolution(frame: string, resolution: Resolution, common: Resolution)

  /** The result dictionary of `validate_frames`; `resolutions` lists each size with its frame count in first-seen order. */
  datatype ValidationResult =
    | ValidationError(code: string, message: string)
    | Validation(status: string, code: string, message: string, totalFrames: nat,
                 resolutions: seq<(Resolution, nat)>, issues: seq<Issue>)

  /** The resolutions seen in first-seen order, the frame names per resolution, and the per-frame issues. */
  datatype Tally = Tally(order: seq<Resolution>, groups: map<Resolution, seq<string>>, issues: seq<Issue>)

  /** The order lists each key of the map once, and every group is non-empty. */
  predicate TallyInv(t: Tally)
  {
    && (forall i :: 0 <= i < |t.order| ==> t.order[i] in t.groups)
    && (forall r :: r in t.groups ==> r in t.order)
    && (forall i, j :: 0 <= i < j < |t.order| ==> t.order[i] != t.order[j])
    && (forall r :: r in t.groups ==> |t.groups[r]| >= 1)
  }

  /** One frame of the first loop of `validate_frames`. */
  function TallyStep(t: Tally, path: string, expected: Option<Resolution>, open: string -> FrameOpen): Tally
  {
    var name := Paths.Basename(path);
    match open(path)
    case Unreadable(e) => Tally(t.order, t.groups, t.issues + [CorruptOrUnreadable(name, e)])
    case Readable(r) =>
      var order := if r in t.groups then t.order else t.order + [r];
      var groups := t.groups[r := (if r in t.groups then t.groups[r] else []) + [name]];
      var issues := if expected.Some? && r != expected.value then t.issues + [WrongResolution(name, expected.value, r)] else t.issues;
      Tally(order, groups, issues)
  }

  function TallyRun(paths: seq<string>, expected: Option<Resolution>, open: string -> FrameOpen): Tally
  {
    if paths == [] then Tally([], map[], [])
    else TallyStep(TallyRun(paths[..|paths| - 1], expected, open), paths[|paths| - 1], expected, open)
  }

  /** The number of frames that open. */
  function ReadableCount(paths: seq<string>, open: string -> FrameOpen): nat
  {
    if paths == [] then 0
    else ReadableCount(paths[..|paths| - 1], open) + (if open(paths[|paths| - 1]).Readable? then 1 else 0)
  }

  /** The total size of the groups listed in `order`. */
  function SumSizes(order: seq<Resolution>, groups: map<Resolution, seq<string>>): nat
    requires forall i :: 0 <= i < |order| ==> order[i] in groups
  {
    if order == [] then 0 else SumSizes(order[..|order| - 1], groups) + |groups[order[|order| - 1]]|
  }

  lemma {:induction false} SumSizesUnrelated(order: seq<Resolution>, groups: map<Resolution, seq<string>>, r: Resolution, g: seq<string>)
    requires forall i :: 0 <= i < |order| ==> order[i] in groups && order[i] != r
    ensures SumSizes(order, groups[r := g]) == SumSizes(order, groups)
  {
    if order != [] {
      SumSizesUnrelated(order[..|order| - 1], groups, r, g);
    }
  }

  lemma {:induction false} SumSizesGrow(order: seq<Resolution>, groups: map<Resolution, seq<string>>, r: Resolution, g: seq<string>)
    requires forall i :: 0 <= i < |order| ==> order[i] in groups
    requires forall i, j :: 0 <= i < j < |order| ==> order[i] != order[j]
    requires r in groups && r in order
    ensures SumSizes(order, groups[r := g]) + |groups[r]| == SumSizes(order, groups) + |g|
  {
    var front, last := order[..|order| - 1], order[|order| - 1];
    if last == r {
      SumSizesUnrelated(front, groups, r, g);
    } else {
      assert r in front by {
        var k :| 0 <= k < |order| && order[k] == r;
        assert k < |order| - 1;
        assert front[k] == r;
      }
      SumSizesGrow(front, groups, r, g);
    }
  }

  lemma TallyStepInv(t: Tally, path: string, expected: Option<Resolution>, open: string -> FrameOpen)
    requires TallyInv(t)
    ensures TallyInv(TallyStep(t, path, expected, open))
  {
  }

  lemma {:induction false} TallyRunInv(paths: seq<string>, expected: Option<Resolution>, open: string -> FrameOpen)
    ensures TallyInv(TallyRun(paths, expected, open))
  {
    if paths != [] {
      TallyRunInv(paths[..|paths| - 1], expected, open);
      TallyStepInv(TallyRun(paths[..|paths| - 1], expected, open), paths[|paths| - 1], expected, open);
    }
  }

  /** A new resolution listed last with a one-frame group adds one to the total. */
  lemma SumSizesExtend(order: seq<Resolution>, groups: map<Resolution, seq<string>>, r: Resolution, name: string)
    requires forall i :: 0 <= i < |order| ==> order[i] in groups && order[i] != r
    ensures SumSizes(order + [r], groups[r := [name]]) == SumSizes(order, groups) + 1
  {
    var order' := order + [r];
    assert order'[..|order'| - 1] == order;
    SumSizesUnrelated(order, groups, r, [name]);
  }

  /** One frame adds one to the tally when it opens and nothing otherwise. */
  lemma TallyStepCount(t: Tally, path: string, expected: Option<Resolution>, open: string -> FrameOpen)
    requires TallyInv(t)
    ensures var t' := TallyStep(t, path, expected, open);
      && (forall i :: 0 <= i < |t'.order| ==> t'.order[i] in t'.groups)
      && SumSizes(t'.order, t'.groups) == SumSizes(t.order, t.groups) + (if open(path).Readable? then 1 else 0)
  {
    if open(path).Readable? {
      var r, name := open(path).size, Paths.Basename(path);
      if r in t.groups {
        SumSizesGrow(t.order, t.groups, r, t.groups[r] + [name]);
      } else {
        var none: seq<string> := [];
        assert none + [name] == [name];
        SumSizesExtend(t.order, t.groups, r, name);
      }
    }
  }

  /** The tally counts exactly the frames that open: unreadable frames are left out of it. */
  lemma {:induction false} TallyRunCounts(paths: seq<string>, expected: Option<Resolution>, open: string -> FrameOpen)
    ensures TallyInv(TallyRun(paths, expected, open))
    ensures SumSizes(TallyRun(paths, expected, open).order, TallyRun(paths, expected, open).groups)
      == ReadableCount(paths, open)
  {
    TallyRunInv(paths, expected, open);
    if paths != [] {
      var front, last := paths[..|paths| - 1], paths[|paths| - 1];
      TallyRunCounts(front, expected, open);
      TallyStepCount(TallyRun(front, expected, open), last, expected, open);
    }
  }

  /** Unreadable frames get `corrupt_or_unreadable`: each one's issue is in the first loop's issues. */
  lemma {:induction false} TallyRunCorrupt(paths: seq<string>, expected: Option<Resolution>, open: string -> FrameOpen, i: nat)
    requires i < |paths| && open(paths[i]).Unreadable?
    ensures CorruptOrUnreadable(Paths.Basename(paths[i]), open(paths[i]).error) in TallyRun(paths, expected, open).issues
  {
    var front := paths[..|paths| - 1];
    if i < |front| {
      assert front[i] == paths[i];
      TallyRunCorrupt(front, expected, open, i);
    }
  }

  /** A readable frame of another size than the expected one gets `wrong_resolution`. */
  lemma {:induction false} TallyRunWrong(paths: seq<string>, expected: Option<Resolution>, open: string -> FrameOpen, i: nat)
    requires i < |paths| && open(paths[i]).Readable? && expected.Some? && open(paths[i]).size != expected.value
    ensures WrongResolution(Paths.Basename(paths[i]), expected.value, open(paths[i]).size) in TallyRun(paths, expected, open).issues
  {
    var front := paths[..|paths| - 1];
    if i < |front| {
      assert front[i] == paths[i];
      TallyRunWrong(front, expected, open, i);
    }
  }

  /** The first loop records no other issue: each one belongs to some frame. */
  lemma {:induction false} TallyRunIssuesSound(paths: seq<string>, expected: Option<Resolution>, open: string -> FrameOpen, x: Issue)
    requires x in TallyRun(paths, expected, open).issues
    ensures exists i :: 0 <= i < |paths| && IssueOfFrame(x, paths[i], expected, open)
  {
    var front, last := paths[..|paths| - 1], paths[|paths| - 1];
    if x in TallyRun(front, expected, open).issues {
      TallyRunIssuesSound(front, expected, open, x);
      var i :| 0 <= i < |front| && IssueOfFrame(x, front[i], expected, open);
      assert front[i] == paths[i];
    } else {
      assert IssueOfFrame(x, paths[|paths| - 1], expected, open);
    }
  }

  /** Issue `x` is the first-loop issue of the frame at `path`. */
  predicate IssueOfFrame(x: Issue, path: string, expected: Option<Resolution>, open: string -> FrameOpen)
  {
    match open(path)
    case Unreadable(e) => x == CorruptOrUnreadable(Paths.Basename(path), e)
    case Readable(r) => expected.Some? && r != expected.value && x == WrongResolution(Paths.Basename(path), expected.value, r)
  }

  /** `max(resolutions.keys(), key=lambda k: len(resolutions[k]))`: the first resolution with the most frames. */
  function MostCommon(order: seq<Resolution>, groups: map<Resolution, seq<string>>): (c: Resolution)
    requires |order| >= 1 && forall i :: 0 <= i < |order| ==> order[i] in groups
    ensures c in groups
    ensures forall i :: 0 <= i < |order| ==> |groups[order[i]]| <= |groups[c]|
    ensures exists k :: 0 <= k < |order| && order[k] == c && forall j :: 0 <= j < k ==> |groups[order[j]]| < |groups[c]|
  {
    if |order| == 1 then order[0]
    else
      var front, last := order[..|order| - 1], order[|order| - 1];
      var m := MostCommon(front, groups);
      assert forall i :: 0 <= i < |front| ==> front[i] == order[i];
      if |groups[last]| > |groups[m]| then last else m
  }

  /** One `inconsistent_resolution` issue per frame of a group. */
  function GroupIssues(frames: seq<string>, r: Resolution, common: Resolution): (issues: seq<Issue>)
    ensures |issues| == |frames|
  {
    seq(|frames|, i requires 0 <= i < |frames| => InconsistentResolution(frames[i], r, common))
  }

  /** The second loop: the frames of each resolution with fewer than half of all frames, resolution by resolution. */
  function MinorityIssues(order: seq<Resolution>, groups: map<Resolution, seq<string>>, total: nat, common: Resolution): seq<Issue>
    requires forall i :: 0 <= i < |order| ==> order[i] in groups
  {
    if order == [] then []
    else
      var r := order[|order| - 1];
      MinorityIssues(order[..|order| - 1], groups, total, common)
      + (if 2 * |groups[r]| < total then GroupIssues(groups[r], r, common) else [])
  }

  /**
   * A frame gets an `inconsistent_resolution` issue exactly when its resolution's group
   * holds fewer than half of all frames; the issue names the most common resolution.
   */
  lemma {:induction false} MinorityIssuesIff(order: seq<Resolution>, groups: map<Resolution, seq<string>>, total: nat,
                                             common: Resolution, f: string, r: Resolution, c: Resolution)
    requires forall i :: 0 <= i < |order| ==> order[i] in groups
    ensures InconsistentResolution(f, r, c) in MinorityIssues(order, groups, total, common) <==>
      r in order && f in groups[r] && 2 * |groups[r]| < total && c == common
    ensures forall x :: x in MinorityIssues(order, groups, total, common) ==> x.InconsistentResolution?
  {
    if order != [] {
      var front, last := order[..|order| - 1], order[|order| - 1];
      MinorityIssuesIff(front, groups, total, common, f, r, c);
      assert order == front + [last];
      var g := groups[last];
      if InconsistentResolution(f, r, c) in GroupIssues(g, last, common) {
        var k :| 0 <= k < |g| && GroupIssues(g, last, common)[k] == InconsistentResolution(f, r, c);
        assert g[k] == f;
      }
      if r == last && f in g && c == common {
        var k :| 0 <= k < |g| && g[k] == f;
        assert GroupIssues(g, last, common)[k] == InconsistentResolution(f, r, c);
      }
    }
  }

  function Counts(order: seq<Resolution>, groups: map<Resolution, seq<string>>): seq<(Resolution, nat)>
    requires forall i :: 0 <= i < |order| ==> order[i] in groups
  {
    seq(|order|, i requires 0 <= i < |order| => (order[i], |groups[order[i]]|))
  }

  /** The second loop's issues: none unless at least two resolutions were seen. */
  function ResolutionIssues(t: Tally, total: nat): seq<Issue>
    requires forall i :: 0 <= i < |t.order| ==> t.order[i] in t.groups
  {
    if |t.order| > 1 then MinorityIssues(t.order, t.groups, total, MostCommon(t.order, t.groups)) else []
  }

  /** `validate_frames(frame_directory, expected_resolution)` as a value. */
  function ValidationOf(matches: seq<string>, expected: Option<Resolution>, open: string -> FrameOpen): ValidationResult
  {
    var files := Ordering.Sort(matches);
    if files == [] then ValidationError("no_frames", "No PNG frames found")
    else
      TallyRunInv(files, expected, open);
      Verdict(TallyRun(files, expected, open), |files|)
  }

  /** The result for `total` frames whose first loop produced `t`. */
  function Verdict(t: Tally, total: nat): ValidationResult
    requires TallyInv(t)
  {
    var issues := t.issues + ResolutionIssues(t, total);
    Validation(if issues == [] then "ok" else "warning", if issues == [] then "validated" else "issues_found",
               "Validated " + Decimal.NatToString(total) + " frames", total, Counts(t.order, t.groups), issues)
  }

  /**
   * Validation reports "ok" exactly when there are no issues and "warning" otherwise;
   * `inconsistent_resolution` arises only with two or more resolutions, for the frames
   * of a resolution held by fewer than half of all frames (unreadable ones included),
   * and always names the first resolution with the most frames. Every unreadable frame
   * is reported `corrupt_or_unreadable`, every readable frame of another size than the
   * expected one `wrong_resolution`, and every other issue belongs to some frame that way.
   */
  lemma ValidationFacts(matches: seq<string>, expected: Option<Resolution>, open: string -> FrameOpen,
                        f: string, r: Resolution, c: Resolution, i: nat, x: Issue)
    ensures var v := ValidationOf(matches, expected, open);
      && (matches == [] <==> v.ValidationError?)
      && (v.Validation? ==>
            && v.totalFrames == |matches|
            && (v.status == "ok" <==> v.issues == [])
            && (v.status != "ok" ==> v.status == "warning" && v.code == "issues_found"))
    ensures var v := ValidationOf(matches, expected, open);
      var t := TallyRun(Ordering.Sort(matches), expected, open);
      v.Validation? ==> (TallyInv(t) &&
        (InconsistentResolution(f, r, c) in v.issues <==>
          && |t.order| >= 2 && r in t.groups && f in t.groups[r] && 2 * |t.groups[r]| < |matches|
          && c == MostCommon(t.order, t.groups)))
    ensures var v := ValidationOf(matches, expected, open);
      var files := Ordering.Sort(matches);
      v.Validation? && i < |files| ==>
        && (open(files[i]).Unreadable? ==>
              CorruptOrUnreadable(Paths.Basename(files[i]), open(files[i]).error) in v.issues)
        && (open(files[i]).Readable? && expected.Some? && open(files[i]).size != expected.value ==>
              WrongResolution(Paths.Basename(files[i]), expected.value, open(files[i]).size) in v.issues)
    ensures var v := ValidationOf(matches, expected, open);
      var files := Ordering.Sort(matches);
      v.Validation? && x in v.issues && !x.InconsistentResolution? ==>
        exists j :: 0 <= j < |files| && IssueOfFrame(x, files[j], expected, open)
  {
    var files := Ordering.Sort(matches);
    if matches == [] {
      assert files == [];
    } else {
      assert |files| == |matches|;
      var t := TallyRun(files, expected, open);
      TallyRunCounts(files, expected, open);
      VerdictFrameIssues(files, expected, open, i, x);
      VerdictMinority(files, expected, open, f, r, c);
    }
  }

  /** The verdict's `inconsistent_resolution` issues are exactly those of the minority rule. */
  lemma VerdictMinority(files: seq<string>, expected: Option<Resolution>, open: string -> FrameOpen,
                        f: string, r: Resolution, c: Resolution)
    requires files != []
    ensures TallyInv(TallyRun(files, expected, open))
    ensures var t := TallyRun(files, expected, open);
      InconsistentResolution(f, r, c) in Verdict(t, |files|).issues <==>
        && |t.order| >= 2 && r in t.groups && f in t.groups[r] && 2 * |t.groups[r]| < |files|
        && c == MostCommon(t.order, t.groups)
  {
    TallyRunInv(files, expected, open);
    var t := TallyRun(files, expected, open);
    assert Verdict(t, |files|).issues == t.issues + ResolutionIssues(t, |files|);
    if InconsistentResolution(f, r, c) in t.issues {
      TallyRunIssuesSound(files, expected, open, InconsistentResolution(f, r, c));
      assert false;
    }
    if |t.order| > 1 {
      MinorityIssuesIff(t.order, t.groups, |files|, MostCommon(t.order, t.groups), f, r, c);
    }
  }

  /** The verdict's issues include each frame's first-loop issue, and its other issues are all `inconsistent_resolution`. */
  lemma VerdictFrameIssues(files: seq<string>, expected: Option<Resolution>, open: string -> FrameOpen, i: nat, x: Issue)
    requires files != []
    ensures TallyInv(TallyRun(files, expected, open))
    ensures var v := Verdict(TallyRun(files, expected, open), |files|);
      i < |files| ==>
        && (open(files[i]).Unreadable? ==>
              CorruptOrUnreadable(Paths.Basename(files[i]), open(files[i]).error) in v.issues)
        && (open(files[i]).Readable? && expected.Some? && open(files[i]).size != expected.value ==>
              WrongResolution(Paths.Basename(files[i]), expected.value, open(files[i]).size) in v.issues)
    ensures var v := Verdict(TallyRun(files, expected, open), |files|);
      x in v.issues && !x.InconsistentResolution? ==>
        exists j :: 0 <= j < |files| && IssueOfFrame(x, files[j], expected, open)
  {
    TallyRunInv(files, expected, open);
    var t := TallyRun(files, expected, open);
    var v := Verdict(t, |files|);
    assert v.issues == t.issues + ResolutionIssues(t, |files|);
    if i < |files| {
      if open(files[i]).Unreadable? {
        TallyRunCorrupt(files, expected, open, i);
      }
      if open(files[i]).Readable? && expected.Some? && open(files[i]).size != expected.value {
        TallyRunWrong(files, expected, open, i);
      }
    }
    if x in v.issues && !x.InconsistentResolution? {
      if |t.order| > 1 {
        var common := MostCommon(t.order, t.groups);
        MinorityIssuesIff(t.order, t.groups, |files|, common, x.frame, Resolution(0, 0), common);
      }
      assert x in t.issues;
      TallyRunIssuesSound(files, expected, open, x);
    }
  }

  // ---------------------------------------------------------------------
  // --expected-resolution

  /** `w, h = arg.split('x')` then `(int(w), int(h))`; `None` where that raises. */
  function ParseResolution(arg: string): Option<Resolution>
  {
    var parts := Text.SplitOn(arg, 'x');
    if |parts| != 2 then None
    else
      match (Decimal.ParseInt(parts[0]), Decimal.ParseInt(parts[1]))
      case (Some(w), Some(h)) => Some(Resolution(w, h))
      case _ => None
  }

  /** What `main` makes of `--expected-resolution`: nothing to check, a resolution, or exit status 1. */
  datatype ExpectedArg = NoExpectation | Expect(resolution: Resolution) | InvalidFormat

  function ExpectedFrom(arg: Option<string>): (e: ExpectedArg)
    ensures e == NoExpectation <==> arg.None? || arg.value == ""
    ensures e == InvalidFormat <==> arg.Some? && arg.value != "" && ParseResolution(arg.value).None?
    ensures e.Expect? ==> arg.Some? && ParseResolution(arg.value) == Some(e.resolution)
  {
    if arg.None? || arg.value == "" then NoExpectation
    else match ParseResolution(arg.value)
      case Some(r) => Expect(r)
      case None => InvalidFormat
  }

  lemma NoXInNumeral(n: nat)
    ensures 'x' !in Decimal.NatToString(n)
  {
    var a := Decimal.NatToString(n);
    assert forall i :: 0 <= i < |a| ==> Decimal.IsDigit(a[i]);
  }

  /** `"WxH"` for non-negative W and H reads back as `(W, H)`. */
  lemma ParseResolutionRoundTrip(w: nat, h: nat)
    ensures ParseResolution(Decimal.NatToString(w) + "x" + Decimal.NatToString(h)) == Some(Resolution(w, h))
    ensures ExpectedFrom(Some(Decimal.NatToString(w) + "x" + Decimal.NatToString(h))) == Expect(Resolution(w, h))
  {
    NoXInNumeral(w);
    NoXInNumeral(h);
    Decimal.ParseIntNatToString(w);
    Decimal.ParseIntNatToString(h);
    ParseResolutionAccepts(Decimal.NatToString(w), Decimal.NatToString(h));
  }

  /**
   * Any two `x`-free parts that `int` reads are accepted, as (first, second): signs,
   * surrounding whitespace, leading zeros and underscores included.
   */
  lemma ParseResolutionAccepts(a: string, b: string)
    requires 'x' !in a && 'x' !in b && Decimal.ParseInt(a).Some? && Decimal.ParseInt(b).Some?
    ensures ParseResolution(a + "x" + b) == Some(Resolution(Decimal.ParseInt(a).value, Decimal.ParseInt(b).value))
  {
    assert a + "x" + b == a + ['x'] + b;
    Text.SplitOnFirst(a, 'x', b);
    Text.SplitOnAbsent(b, 'x');
    assert Text.SplitOn(a + "x" + b, 'x') == [a, b];
  }

  /** `--expected-resolution " WxH"` is accepted as (W, H): `int()` strips the leading space. */
  lemma ExpectedSpacePadded(w: nat, h: nat)
    ensures ExpectedFrom(Some(" " + Decimal.NatToString(w) + "x" + Decimal.NatToString(h))) == Expect(Resolution(w, h))
  {
    var a, b := Decimal.NatToString(w), Decimal.NatToString(h);
    NoXInNumeral(w);
    NoXInNumeral(h);
    Decimal.ParseIntNatToString(w);
    Decimal.ParseIntNatToString(h);
    var first := [' '] + a;
    assert " " + a + "x" + b == first + "x" + b;
    Decimal.ParseIntLeadingSpace(' ', a);
    assert first[0] != 'x' && first[1..] == a;
    ParseResolutionAccepts(first, b);
  }

  /**
   * An argument starting with the ASCII separator U+001C, such as `"\x1c640x480"`,
   * makes `main` exit with status 1: `int()` does not strip that character.
   */
  lemma ExpectedSeparatorPadded(a: string, b: string)
    requires 'x' !in a && 'x' !in b
    ensures ExpectedFrom(Some("\U{1c}" + a + "x" + b)) == InvalidFormat
  {
    var first := "\U{1c}" + a;
    assert "\U{1c}" + a + "x" + b == first + "x" + b;
    Decimal.ParseIntSeparatorNotStripped(a);
    assert first[0] != 'x' && first[1..] == a;
    ParseResolutionFirstRejected(first, b);
  }

  /** A first part that `int` rejects makes the argument rejected. */
  lemma ParseResolutionFirstRejected(a: string, b: string)
    requires 'x' !in a && 'x' !in b && Decimal.ParseInt(a).None?
    ensures ParseResolution(a + "x" + b) == None
  {
    assert a + "x" + b == a + ['x'] + b;
    Text.SplitOnFirst(a, 'x', b);
    Text.SplitOnAbsent(b, 'x');
    assert Text.SplitOn(a + "x" + b, 'x') == [a, b];
  }

  /** Two parts join around a single separator. */
  lemma JoinTwo(a: string, b: string, c: char)
    ensures Text.JoinOn([a, b], c) == a + [c] + b
  {
    assert [a, b][1..] == [b];
  }

  /** An accepted argument is two parts around a single `x`, each an integer. */
  lemma ParseResolutionShape(arg: string)
    requires ParseResolution(arg).Some?
    ensures exists a, b :: (arg == a + "x" + b && 'x' !in a && 'x' !in b
      && Decimal.ParseInt(a) == Some(ParseResolution(arg).value.width)
      && Decimal.ParseInt(b) == Some(ParseResolution(arg).value.height))
  {
    var parts := Text.SplitOn(arg, 'x');
    assert |parts| == 2;
    var a, b := parts[0], parts[1];
    assert parts == [a, b];
    Text.JoinSplitOn(arg, 'x');
    JoinTwo(a, b, 'x');
    assert arg == a + "x" + b;
  }

  /** Without an `x` the argument is rejected. */
  lemma ParseResolutionNeedsX(arg: string)
    requires 'x' !in arg
    ensures ParseResolution(arg) == None
  {
    Text.SplitOnAbsent(arg, 'x');
  }

  // ---------------------------------------------------------------------
  // FramePreprocessor

  class FramePreprocessor {
    var enhancer: Enhance.ImageEnhancer

    /** `FramePreprocessor(use_gimp, gimp_path)`: wraps a fresh enhancer built with the same arguments. */
    constructor (useGimp: bool, gimpPath: Option<string>, probe: string -> Enhance.ProbeResult)
      ensures fresh(enhancer)
      ensures enhancer.gimpPath ==
        if gimpPath.Some? && gimpPath.value != "" then gimpPath else Enhance.FirstPassing(Enhance.GimpCandidates, probe)
      ensures enhancer.useGimp == (useGimp && enhancer.gimpPath.Some?)
    {
      enhancer := new Enhance.ImageEnhancer(useGimp, gimpPath, probe);
    }

    /**
     * `preprocess_frames(frame_directory, output_directory, preset, operations, pattern)`:
     * each sorted frame in turn through `enhance`, collecting outputs and failures.
     */
    method PreprocessFrames(frameDirectory: string, outputDirectory: Option<string>, preset: string,
                            operations: Option<Enhance.Ops>, pattern: string, dirExists: bool,
                            matches: seq<string>, envFor: string -> Enhance.Env)
      returns (p: Preprocessing)
      ensures p == PreprocessOutcome(enhancer.useGimp, frameDirectory, outputDirectory, preset, operations, pattern,
                                     dirExists, matches, envFor)
    {
      if !dirExists {
        return Preprocessing(PreprocessError("directory_not_found", "Directory not found: " + frameDirectory), None);
      }
      var outDir := if outputDirectory.Some? then outputDirectory.value else frameDirectory + "_enhanced";
      var files := Ordering.Sort(matches);
      if files == [] {
        return Preprocessing(PreprocessError("no_frames", "No frames found matching pattern: " + pattern), Some(outDir));
      }
      var enhanced, failed := EnhanceEach(files, outDir, preset, operations, envFor);
      var ok := enhanced != [];
      p := Preprocessing(
        Preprocessed(if ok then "ok" else "error", if ok then "success" else "all_failed",
                     "Enhanced " + Decimal.NatToString(|enhanced|) + " frames", enhanced, failed, outDir,
                     |files|, |enhanced|, |failed|),
        Some(outDir));
    }

    /** The loop of `preprocess_frames`: each frame through `enhance`, sorted into outputs and failures. */
    method EnhanceEach(files: seq<string>, outDir: string, preset: string, operations: Option<Enhance.Ops>,
                       envFor: string -> Enhance.Env)
      returns (enhanced: seq<string>, failed: seq<Failure>)
      ensures var results := FrameResults(Job(enhancer.useGimp, outDir, preset, operations, envFor));
        enhanced == EnhancedOf(outDir, files, results) && failed == FailedOf(files, results)
    {
      ghost var results := FrameResults(Job(enhancer.useGimp, outDir, preset, operations, envFor));
      enhanced, failed := [], [];
      for i := 0 to |files|
        invariant enhanced == EnhancedOf(outDir, files[..i], results)
        invariant failed == FailedOf(files[..i], results)
      {
        var frameName := Paths.Basename(files[i]);
        var outputPath := Paths.Join(outDir, frameName);
        var outcome := enhancer.Enhance(files[i], outputPath, preset, operations, envFor(files[i]));
        assert outcome.result == results(files[i]);
        assert files[..i + 1][..i] == files[..i];
        if outcome.result.status == "ok" {
          enhanced := enhanced + [outputPath];
        } else {
          failed := failed + [Failure(frameName, outcome.result.message)];
        }
      }
      assert files[..|files|] == files;
    }

    /**
     * `validate_frames(frame_directory, expected_resolution)`: a first loop tallies the
     * frames by size and records per-frame issues, a second flags minority sizes.
     */
    method ValidateFrames(expected: Option<Resolution>, matches: seq<string>, open: string -> FrameOpen)
      returns (v: ValidationResult)
      ensures v == ValidationOf(matches, expected, open)
    {
      var files := Ordering.Sort(matches);
      if files == [] {
        return ValidationError("no_frames", "No PNG frames found");
      }
      var order, groups, firstIssues := TallyFrames(files, expected, open);
      ghost var t := TallyRun(files, expected, open);
      TallyRunInv(files, expected, open);
      assert t == Tally(order, groups, firstIssues);
      var minority := CheckConsistency(order, groups, |files|);
      assert minority == ResolutionIssues(t, |files|);
      var issues := firstIssues + minority;
      var clean := issues == [];
      v := Validation(if clean then "ok" else "warning", if clean then "validated" else "issues_found",
                      "Validated " + Decimal.NatToString(|files|) + " frames", |files|, Counts(order, groups), issues);
      assert v == Verdict(t, |files|);
    }

    /** The consistency check of `validate_frames`, run only when two or more sizes were seen. */
    method CheckConsistency(order: seq<Resolution>, groups: map<Resolution, seq<string>>, total: nat)
      returns (minority: seq<Issue>)
      requires forall i :: 0 <= i < |order| ==> order[i] in groups
      ensures minority == ResolutionIssues(Tally(order, groups, []), total)
    {
      minority := [];
      if |order| > 1 {
        var common := MostCommon(order, groups);
        minority := FlagMinorities(order, groups, total, common);
      }
    }

    /** The first loop of `validate_frames`: tally each frame's size and record its issue. */
    method TallyFrames(files: seq<string>, expected: Option<Resolution>, open: string -> FrameOpen)
      returns (order: seq<Resolution>, groups: map<Resolution, seq<string>>, issues: seq<Issue>)
      ensures Tally(order, groups, issues) == TallyRun(files, expected, open)
    {
      order, groups, issues := [], map[], [];
      for i := 0 to |files|
        invariant Tally(order, groups, issues) == TallyRun(files[..i], expected, open)
      {
        var frameName := Paths.Basename(files[i]);
        assert files[..i + 1][..i] == files[..i];
        match open(files[i]) {
          case Unreadable(e) =>
            issues := issues + [CorruptOrUnreadable(frameName, e)];
          case Readable(resolution) =>
            var group: seq<string> := [];
            if resolution in groups {
              group := groups[resolution];
            } else {
              order := order + [resolution];
            }
            groups := groups[resolution := group + [frameName]];
            if expected.Some? && resolution != expected.value {
              issues := issues + [WrongResolution(frameName, expected.value, resolution)];
            }
        }
      }
      assert files[..|files|] == files;
    }

    /** The second loop of `validate_frames`: flag every frame of each minority size. */
    method FlagMinorities(order: seq<Resolution>, groups: map<Resolution, seq<string>>, total: nat, common: Resolution)
      returns (issues: seq<Issue>)
      requires forall i :: 0 <= i < |order| ==> order[i] in groups
      ensures issues == MinorityIssues(order, groups, total, common)
    {
      issues := [];
      for k := 0 to |order|
        invariant issues == MinorityIssues(order[..k], groups, total, common)
      {
        var frames := groups[order[k]];
        assert order[..k + 1][..k] == order[..k];
        if 2 * |frames| < total {
          ghost var before := issues;
          for j := 0 to |frames|
            invariant issues == before + GroupIssues(frames[..j], order[k], common)
          {
            issues := issues + [InconsistentResolution(frames[j], order[k], common)];
          }
          assert frames[..|frames|] == frames;
        }
      }
      assert order[..|order|] == order;
    }
  }
}
