/**
 * The animation assembler (generate_animation.py): frame timing and naming, the frame
 * generation and validation loops of `AnimationGenerator`, the GIF assembly guard, the
 * prompt interpolation of `main`, and `main`'s exit status.
 *
 * Image generation, decoding and GIF encoding are outside the model: whether a frame
 * was generated is `generated(prompt, path)`, what is on disk at a path is `probe(path)`,
 * whether a frame can be reopened for the GIF is `opens(path)`, and whether the GIF
 * save succeeds is `saved`.
 */
module Animation {
  import opened Wrappers
  import Decimal
  import Paths

  const DefaultOutputDir: string := "animations"
  const DefaultFrameRate: int := 10
  const DefaultOutputName: string := "animation.gif"

  datatype Size = Size(width: int, height: int)

  const DefaultResolution: Size := Size(512, 512)

  /** `int(1000 / frame_rate)`: the quotient truncated toward zero, nothing when the rate is 0. */
  function FrameDuration(frameRate: int): (d: Option<int>)
    ensures d.None? <==> frameRate == 0
    ensures frameRate > 0 ==> d.Some? && 0 <= d.value * frameRate <= 1000 < (d.value + 1) * frameRate
    ensures frameRate < 0 ==> d.Some? && d.value <= 0 && 0 <= -d.value * -frameRate <= 1000 < (-d.value + 1) * -frameRate
  {
    if frameRate == 0 then None
    else if frameRate > 0 then Some(1000 / frameRate)
    else Some(-(1000 / -frameRate))
  }

  /** `f"frame_{n:04d}.png"` */
  function FrameFileName(n: nat): string
  {
    "frame_" + Decimal.ZeroPad(n, 4) + ".png"
  }

  /** Where frame `n` is written. */
  function FramePath(dir: string, n: nat): string
  {
    Paths.Join(dir, FrameFileName(n))
  }

  /** A frame's file name is `frame_`, its number in at least four digits (exactly four below 10000), and `.png`. */
  lemma FrameFileNameShape(n: nat)
    ensures exists digits: string ::
      && FrameFileName(n) == "frame_" + digits + ".png"
      && |digits| >= 4 && Decimal.AllDigits(digits) && Decimal.DigitsValue(digits) == n
      && (n < 10000 ==> |digits| == 4)
  {
    var digits := Decimal.ZeroPad(n, 4);
    Decimal.ZeroPadValue(n, 4);
    if n < 10000 {
      Decimal.NatToStringShort(n, 4);
    }
    assert FrameFileName(n) == "frame_" + digits + ".png";
  }

  /** Distinct frame numbers give distinct frame files in one directory. */
  lemma FramePathInjective(dir: string, m: nat, n: nat)
    requires FramePath(dir, m) == FramePath(dir, n)
    ensures m == n
  {
    var a, b := FrameFileName(m), FrameFileName(n);
    assert '/' !in a by { assert forall i :: 0 <= i < |a| ==> a[i] != '/'; }
    assert '/' !in b by { assert forall i :: 0 <= i < |b| ==> b[i] != '/'; }
    Paths.BasenameJoin(dir, a);
    Paths.BasenameJoin(dir, b);
    assert a == b;
    assert Decimal.ZeroPad(m, 4) == a[6..|a| - 4];
    assert Decimal.ZeroPad(n, 4) == b[6..|b| - 4];
    Decimal.ZeroPadInjective(m, n, 4);
  }

  // ---------------------------------------------------------------------
  // Frame generation

  /** The numbers (from 1) of the prompts whose frame was generated, in order. */
  function SucceededNumbers(dir: string, prompts: seq<string>, generated: (string, string) -> bool): (nums: seq<nat>)
    ensures |nums| <= |prompts|
  {
    if prompts == [] then []
    else
      var n := |prompts|;
      SucceededNumbers(dir, prompts[..n - 1], generated)
        + (if generated(prompts[n - 1], FramePath(dir, n)) then [n] else [])
  }

  /** The numbers are those of the prompts whose frame was generated. */
  lemma {:induction false} SucceededNumbersMembers(dir: string, prompts: seq<string>, generated: (string, string) -> bool)
    ensures var nums := SucceededNumbers(dir, prompts, generated);
      forall n :: n in nums <==> 1 <= n <= |prompts| && generated(prompts[n - 1], FramePath(dir, n))
  {
    if prompts != [] {
      var n := |prompts|;
      var init := prompts[..n - 1];
      SucceededNumbersMembers(dir, init, generated);
      var before := SucceededNumbers(dir, init, generated);
      var tail: seq<nat> := if generated(prompts[n - 1], FramePath(dir, n)) then [n] else [];
      var nums := before + tail;
      assert nums == SucceededNumbers(dir, prompts, generated);
      forall m ensures m in nums <==> 1 <= m <= n && generated(prompts[m - 1], FramePath(dir, m)) {
        assert m in nums <==> m in before || m in tail;
        if 1 <= m < n {
          assert prompts[m - 1] == init[m - 1];
        }
      }
    }
  }

  /** Numbers in 1..bound, strictly increasing. */
  ghost predicate IncreasingUpTo(nums: seq<nat>, bound: nat)
  {
    && (forall i :: 0 <= i < |nums| ==> 1 <= nums[i] <= bound)
    && (forall i, j :: 0 <= i < j < |nums| ==> nums[i] < nums[j])
  }

  lemma IncreasingUpToSnoc(nums: seq<nat>, n: nat, tail: seq<nat>)
    requires n >= 1 && IncreasingUpTo(nums, n - 1) && (tail == [] || tail == [n])
    ensures IncreasingUpTo(nums + tail, n)
  {
    var all := nums + tail;
    forall i | 0 <= i < |all| ensures 1 <= all[i] <= n {
      if i < |nums| {
        assert all[i] == nums[i];
      }
    }
    forall i, j | 0 <= i < j < |all| ensures all[i] < all[j] {
      assert all[i] == nums[i];
      if j < |nums| {
        assert all[j] == nums[j];
      }
    }
  }

  /** The numbers lie in 1..|prompts| and are strictly increasing. */
  lemma {:induction false} SucceededNumbersIncreasing(dir: string, prompts: seq<string>, generated: (string, string) -> bool)
    ensures IncreasingUpTo(SucceededNumbers(dir, prompts, generated), |prompts|)
  {
    if prompts != [] {
      var n := |prompts|;
      var init := prompts[..n - 1];
      SucceededNumbersIncreasing(dir, init, generated);
      var tail: seq<nat> := if generated(prompts[n - 1], FramePath(dir, n)) then [n] else [];
      IncreasingUpToSnoc(SucceededNumbers(dir, init, generated), n, tail);
    }
  }

  class AnimationGenerator {
    var outputDir: string
    var frameRate: int
    var resolution: Size
    var frameDuration: int

    /** `AnimationGenerator(output_dir, frame_rate, resolution)`; a zero rate raises, which callers must avoid. */
    constructor (outputDir: string, frameRate: int, resolution: Size)
      requires frameRate != 0
      ensures this.outputDir == outputDir && this.frameRate == frameRate && this.resolution == resolution
      ensures this.frameDuration == FrameDuration(frameRate).value
    {
      this.outputDir := outputDir;
      this.frameRate := frameRate;
      this.resolution := resolution;
      this.frameDuration := FrameDuration(frameRate).value;
    }

    /** `generate_frame(prompt, n)`: the frame's path when generation succeeded, `None` when it raised. */
    method GenerateFrame(prompt: string, n: nat, generated: (string, string) -> bool) returns (path: Option<string>)
      ensures path == if generated(prompt, FramePath(outputDir, n)) then Some(FramePath(outputDir, n)) else None
    {
      var framePath := Paths.Join(outputDir, FrameFileName(n));
      if generated(prompt, framePath) {
        path := Some(framePath);
      } else {
        path := None;
      }
    }

    /** `generate_frames(prompts)`: prompts are numbered from 1; the paths of the frames that succeeded, in order. */
    method GenerateFrames(prompts: seq<string>, generated: (string, string) -> bool) returns (framePaths: seq<string>)
      ensures var nums := SucceededNumbers(outputDir, prompts, generated);
        |framePaths| == |nums| && forall i :: 0 <= i < |nums| ==> framePaths[i] == FramePath(outputDir, nums[i])
    {
      framePaths := [];
      for i := 0 to |prompts|
        invariant var nums := SucceededNumbers(outputDir, prompts[..i], generated);
          |framePaths| == |nums| && forall t :: 0 <= t < |nums| ==> framePaths[t] == FramePath(outputDir, nums[t])
      {
        assert prompts[..i + 1][..i] == prompts[..i];
        var framePath := GenerateFrame(prompts[i], i + 1, generated);
        if framePath.Some? {
          framePaths := framePaths + [framePath.value];
        }
      }
      assert prompts[..|prompts|] == prompts;
    }

    /**
     * `validate_frames(frame_paths)`: a path that is missing or does not decode makes
     * the frames invalid; a frame of the wrong size is only reported.
     */
    method ValidateFrames(framePaths: seq<string>, probe: string -> FrameProbe)
      returns (valid: bool, invalid: seq<string>, mismatched: seq<string>)
      ensures invalid == InvalidFrames(framePaths, probe)
      ensures mismatched == MismatchedFrames(framePaths, probe, resolution)
      ensures valid <==> forall i :: 0 <= i < |framePaths| ==> probe(framePaths[i]).Decoded?
    {
      invalid, mismatched := [], [];
      for i := 0 to |framePaths|
        invariant invalid == InvalidFrames(framePaths[..i], probe)
        invariant mismatched == MismatchedFrames(framePaths[..i], probe, resolution)
      {
        assert framePaths[..i + 1][..i] == framePaths[..i];
        var framePath := framePaths[i];
        match probe(framePath)
        case Missing =>
          invalid := invalid + [framePath];
        case Corrupt =>
          invalid := invalid + [framePath];
        case Decoded(size) =>
          if size != resolution {
            mismatched := mismatched + [framePath];
          }
      }
      assert framePaths[..|framePaths|] == framePaths;
      InvalidFramesEmpty(framePaths, probe);
      valid := invalid == [];
    }

    /**
     * `create_gif(frame_paths, output_filename, loop)`: nothing for an empty list or when
     * a frame cannot be reopened or the save fails; otherwise the GIF at
     * `output_dir/output_filename` with the first frame followed by the rest, in order.
     */
    method CreateGif(framePaths: seq<string>, outputFilename: string, loop: int,
                     opens: string -> bool, saved: bool) returns (gif: Option<Gif>)
      ensures framePaths == [] ==> gif.None?
      ensures framePaths != [] ==>
        (gif.Some? <==> saved && forall i :: 0 <= i < |framePaths| ==> opens(framePaths[i]))
      ensures gif.Some? ==>
        && [gif.value.first] + gif.value.appended == framePaths
        && gif.value.path == Paths.Join(outputDir, outputFilename)
        && gif.value.durationMs == frameDuration && gif.value.loop == loop
        && TotalMillis(gif.value) == |framePaths| * frameDuration
      ensures gif == GifOf(outputDir, frameDuration, framePaths, outputFilename, loop, opens, saved)
    {
      if framePaths == [] {
        return None;
      }
      var outputPath := Paths.Join(outputDir, outputFilename);
      var frames: seq<string> := [];
      for i := 0 to |framePaths|
        invariant frames == framePaths[..i]
        invariant forall t :: 0 <= t < i ==> opens(framePaths[t])
      {
        if !opens(framePaths[i]) {
          return None;
        }
        frames := frames + [framePaths[i]];
      }
      if !saved {
        return None;
      }
      assert frames == framePaths;
      gif := Some(Gif(outputPath, frames[0], frames[1..], frameDuration, loop, true));
      assert [frames[0]] + frames[1..] == framePaths;
    }
  }

  /** What a frame path holds: nothing, an undecodable file, or an image of some size. */
  datatype FrameProbe = Missing | Corrupt | Decoded(size: Size)

  /** The paths `validate_frames` counts as invalid, in order. */
  function InvalidFrames(framePaths: seq<string>, probe: string -> FrameProbe): seq<string>
  {
    if framePaths == [] then []
    else
      var last := framePaths[|framePaths| - 1];
      InvalidFrames(framePaths[..|framePaths| - 1], probe) + (if probe(last).Decoded? then [] else [last])
  }

  /** The decodable paths whose size differs from the resolution, in order: warned about only. */
  function MismatchedFrames(framePaths: seq<string>, probe: string -> FrameProbe, resolution: Size): seq<string>
  {
    if framePaths == [] then []
    else
      var last := framePaths[|framePaths| - 1];
      MismatchedFrames(framePaths[..|framePaths| - 1], probe, resolution)
        + (if probe(last).Decoded? && probe(last).size != resolution then [last] else [])
  }

  /** No invalid frame exactly when every path decodes, whatever the sizes; so an empty list is valid. */
  lemma {:induction false} InvalidFramesEmpty(framePaths: seq<string>, probe: string -> FrameProbe)
    ensures InvalidFrames(framePaths, probe) == [] <==> forall i :: 0 <= i < |framePaths| ==> probe(framePaths[i]).Decoded?
  {
    if framePaths != [] {
      var init := framePaths[..|framePaths| - 1];
      InvalidFramesEmpty(init, probe);
      assert forall i :: 0 <= i < |init| ==> init[i] == framePaths[i];
    }
  }

  /** The assembled GIF: its file, first frame, appended frames, per-frame duration, loop count, optimisation flag. */
  datatype Gif = Gif(path: string, first: string, appended: seq<string>, durationMs: int, loop: int, optimize: bool)

  /** The animation's length in milliseconds, as `create_gif` reports it. */
  function TotalMillis(gif: Gif): int
  {
    (1 + |gif.appended|) * gif.durationMs
  }

  /** The outcome of `create_gif`, as a value. */
  function GifOf(dir: string, duration: int, framePaths: seq<string>, outputFilename: string, loop: int,
                 opens: string -> bool, saved: bool): Option<Gif>
  {
    if framePaths == [] then None
    else if !saved || exists i :: 0 <= i < |framePaths| && !opens(framePaths[i]) then None
    else Some(Gif(Paths.Join(dir, outputFilename), framePaths[0], framePaths[1..], duration, loop, true))
  }

  // ---------------------------------------------------------------------
  // Prompt interpolation in `main`

  /** `f"Transition from ({p}) to ({q}), stage {j}/{k}"` */
  function Transition(p: string, q: string, j: nat, k: nat): string
  {
    "Transition from (" + p + ") to (" + q + "), stage " + Decimal.NatToString(j) + "/" + Decimal.NatToString(k)
  }

  /** The intermediate prompts for stages 1..j between p and q. */
  function Stages(p: string, q: string, k: nat, j: nat): (r: seq<string>)
    ensures |r| == j
  {
    if j == 0 then [] else Stages(p, q, k, j - 1) + [Transition(p, q, j, k)]
  }

  lemma {:induction false} StagesAt(p: string, q: string, k: nat, j: nat, t: nat)
    requires t < j
    ensures Stages(p, q, k, j)[t] == Transition(p, q, t + 1, k)
  {
    if t < j - 1 {
      StagesAt(p, q, k, j - 1, t);
    }
  }

  /** Prompt i and, unless it is the last, the k - 1 transitions to the next one. */
  function Segment(prompts: seq<string>, i: nat, k: nat): seq<string>
    requires i < |prompts| && k >= 1
  {
    [prompts[i]] + (if i < |prompts| - 1 then Stages(prompts[i], prompts[i + 1], k, k - 1) else [])
  }

  /** The expanded list after the first n prompts. */
  function ExpandPrefix(prompts: seq<string>, k: nat, n: nat): seq<string>
    requires n <= |prompts| && k >= 1
  {
    if n == 0 then [] else ExpandPrefix(prompts, k, n - 1) + Segment(prompts, n - 1, k)
  }

  /** The prompt list `main` generates frames for, given `--interpolate k`. */
  function Interpolated(prompts: seq<string>, k: int): seq<string>
  {
    if k > 1 then ExpandPrefix(prompts, k, |prompts|) else prompts
  }

  lemma {:induction false} ExpandPrefixLength(prompts: seq<string>, k: nat, n: nat)
    requires n <= |prompts| && k >= 1
    ensures n < |prompts| ==> |ExpandPrefix(prompts, k, n)| == n * k
    ensures n == |prompts| && n >= 1 ==> |ExpandPrefix(prompts, k, n)| == (n - 1) * k + 1
  {
    if n > 0 {
      ExpandPrefixLength(prompts, k, n - 1);
      assert (n - 1) * k + k == n * k;
    }
  }

  /** Each further prompt only appends to the expanded list. */
  lemma {:induction false} ExpandPrefixExtends(prompts: seq<string>, k: nat, m: nat, n: nat)
    requires m <= n <= |prompts| && k >= 1
    ensures |ExpandPrefix(prompts, k, m)| <= |ExpandPrefix(prompts, k, n)|
    ensures ExpandPrefix(prompts, k, n)[..|ExpandPrefix(prompts, k, m)|] == ExpandPrefix(prompts, k, m)
    decreases n
  {
    if m < n {
      ExpandPrefixExtends(prompts, k, m, n - 1);
      var a, b, c := ExpandPrefix(prompts, k, m), ExpandPrefix(prompts, k, n - 1), ExpandPrefix(prompts, k, n);
      assert c == b + Segment(prompts, n - 1, k);
      assert c[..|b|] == b;
      assert c[..|a|] == b[..|a|];
    }
  }

  /** With k > 1 and N >= 1 prompts, the expanded list has (N - 1) * k + 1 entries. */
  lemma InterpolatedLength(prompts: seq<string>, k: int)
    requires k > 1 && |prompts| >= 1
    ensures |Interpolated(prompts, k)| == (|prompts| - 1) * k + 1
  {
    ExpandPrefixLength(prompts, k, |prompts|);
  }

  /** With k <= 1 the prompts are used as given. */
  lemma NoInterpolation(prompts: seq<string>, k: int)
    requires k <= 1
    ensures Interpolated(prompts, k) == prompts
  {
  }

  /** Original prompt i sits at index i * k, and stage j of the transition to prompt i + 1 at i * k + j. */
  lemma InterpolatedAt(prompts: seq<string>, k: int, i: nat, j: nat)
    requires k > 1 && i < |prompts|
    requires j < k && (j > 0 ==> i < |prompts| - 1)
    ensures i * k + j < |Interpolated(prompts, k)|
    ensures Interpolated(prompts, k)[i * k + j] ==
      (if j == 0 then prompts[i] else Transition(prompts[i], prompts[i + 1], j, k))
  {
    var before, upto := ExpandPrefix(prompts, k, i), ExpandPrefix(prompts, k, i + 1);
    SegmentAt(prompts, k, i, j);
    ExpandPrefixLength(prompts, k, i);
    ExpandPrefixExtends(prompts, k, i + 1, |prompts|);
    ExpandPrefixAt(prompts, k, i, j);
  }

  /** Entry j of segment i: the prompt itself, then stage j of its transition. */
  lemma SegmentAt(prompts: seq<string>, k: nat, i: nat, j: nat)
    requires k > 1 && i < |prompts|
    requires j < k && (j > 0 ==> i < |prompts| - 1)
    ensures j < |Segment(prompts, i, k)|
    ensures Segment(prompts, i, k)[j] == if j == 0 then prompts[i] else Transition(prompts[i], prompts[i + 1], j, k)
  {
    if j > 0 {
      StagesAt(prompts[i], prompts[i + 1], k, k - 1, j - 1);
    }
  }

  /** Entry j of segment i sits just after the first i segments. */
  lemma ExpandPrefixAt(prompts: seq<string>, k: nat, i: nat, j: nat)
    requires k >= 1 && i < |prompts| && j < |Segment(prompts, i, k)|
    ensures |ExpandPrefix(prompts, k, i)| + j < |ExpandPrefix(prompts, k, i + 1)|
    ensures ExpandPrefix(prompts, k, i + 1)[|ExpandPrefix(prompts, k, i)| + j] == Segment(prompts, i, k)[j]
  {
    var before, seg := ExpandPrefix(prompts, k, i), Segment(prompts, i, k);
    assert ExpandPrefix(prompts, k, i + 1) == before + seg;
  }

  /** The interpolation loop of `main`, appending prompt by prompt and stage by stage. */
  method ExpandPrompts(prompts: seq<string>, interpolate: int) returns (expanded: seq<string>)
    ensures expanded == Interpolated(prompts, interpolate)
  {
    if interpolate <= 1 {
      return prompts;
    }
    var interpolatedPrompts: seq<string> := [];
    for i := 0 to |prompts|
      invariant interpolatedPrompts == ExpandPrefix(prompts, interpolate, i)
    {
      interpolatedPrompts := interpolatedPrompts + [prompts[i]];
      if i < |prompts| - 1 {
        interpolatedPrompts := AppendStages(interpolatedPrompts, prompts[i], prompts[i + 1], interpolate);
      }
    }
    expanded := interpolatedPrompts;
  }

  /** The inner loop of the interpolation: the transitions of stages 1..k-1 appended in order. */
  method AppendStages(acc: seq<string>, p: string, q: string, k: nat) returns (r: seq<string>)
    requires k >= 1
    ensures r == acc + Stages(p, q, k, k - 1)
  {
    r := acc;
    for j := 1 to k
      invariant r == acc + Stages(p, q, k, j - 1)
    {
      r := r + [Transition(p, q, j, k)];
    }
  }

  // ---------------------------------------------------------------------
  // main

  /** The command line of `main`: `--prompts ... --output-dir --output-name --frame-rate --width --height --loop --interpolate`. */
  datatype Args = Args(prompts: seq<string>, outputDir: string, outputName: string, frameRate: int,
                       width: int, height: int, useAi: bool, loop: int, interpolate: int)

  /** What one run of `main` produced and its exit status. */
  datatype RunOutcome = RunOutcome(framePaths: seq<string>, valid: bool, gif: Option<Gif>, exitCode: int)

  /**
   * `main()` after argument parsing: the prompts are expanded, frames generated and
   * validated, and the GIF assembled whatever the validation verdict; the exit status
   * is 1 exactly when no GIF was written. A frame rate of 0 raises in the constructor.
   */
  method RunMain(args: Args, generated: (string, string) -> bool, probe: string -> FrameProbe,
                 opens: string -> bool, saved: bool) returns (outcome: RunOutcome)
    ensures args.frameRate == 0 ==> outcome == RunOutcome([], false, None, 1)
    ensures args.frameRate != 0 ==>
      var prompts := Interpolated(args.prompts, args.interpolate);
      var nums := SucceededNumbers(args.outputDir, prompts, generated);
      && |outcome.framePaths| == |nums|
      && (forall i :: 0 <= i < |nums| ==> outcome.framePaths[i] == FramePath(args.outputDir, nums[i]))
      && (outcome.valid <==> forall i :: 0 <= i < |outcome.framePaths| ==> probe(outcome.framePaths[i]).Decoded?)
      && outcome.gif == GifOf(args.outputDir, FrameDuration(args.frameRate).value, outcome.framePaths,
                              args.outputName, args.loop, opens, saved)
      && outcome.exitCode == (if outcome.gif.None? then 1 else 0)
  {
    if args.frameRate == 0 {
      return RunOutcome([], false, None, 1);
    }
    var generator := new AnimationGenerator(args.outputDir, args.frameRate, Size(args.width, args.height));
    var prompts := ExpandPrompts(args.prompts, args.interpolate);
    var framePaths := generator.GenerateFrames(prompts, generated);
    var valid, _, _ := generator.ValidateFrames(framePaths, probe);
    var gif := generator.CreateGif(framePaths, args.outputName, args.loop, opens, saved);
    var exitCode := if gif.Some? then 0 else 1;
    outcome := RunOutcome(framePaths, valid, gif, exitCode);
  }
}
