/**
 * The enhancement operator (enhance_image.py): the presets, GIMP discovery and the
 * downgrade when it is missing, `enhance`'s error precedence and GIMP fallback, the
 * in-process step sequence, the Script-Fu command sequence, and auto-levels.
 *
 * Pixel filters are not computed: the in-process path is the sequence of filter steps
 * it applies (`PilStep`), the GIMP path the sequence of Script-Fu commands it runs
 * (`ScriptCmd`). Auto-levels is modelled on channels of exact reals. The file system
 * and the GIMP subprocess are the parameters `env` and `probe`.
 */
module Enhance {
  import opened Wrappers

  /**
   * An operations dictionary: each key is present with a value, or absent (`None`),
   * in which case `operations.get` yields the key's no-op default.
   */
  datatype Ops = Ops(autoLevels: Option<bool>, denoise: Option<int>, sharpen: Option<real>,
                     despeckle: Option<bool>, brightness: Option<real>, contrast: Option<real>,
                     saturation: Option<real>)

  const Light: Ops := Ops(Some(true), Some(1), Some(0.3), Some(false), Some(1.05), Some(1.05), Some(1.0))
  const Medium: Ops := Ops(Some(true), Some(2), Some(0.5), Some(true), Some(1.1), Some(1.1), Some(1.05))
  const Aggressive: Ops := Ops(Some(true), Some(3), Some(0.8), Some(true), Some(1.15), Some(1.15), Some(1.1))

  /** `ImageEnhancer.PRESETS` */
  const Presets: map<string, Ops> := map["light" := Light, "medium" := Medium, "aggressive" := Aggressive]

  /** An empty dictionary: every key absent. */
  const NoOps: Ops := Ops(None, None, None, None, None, None, None)

  function AutoLevelsOn(ops: Ops): bool { ops.autoLevels == Some(true) }
  function DespeckleOn(ops: Ops): bool { ops.despeckle == Some(true) }
  function DenoiseLevel(ops: Ops): int { ops.denoise.GetOr(0) }
  function SharpenAmount(ops: Ops): real { ops.sharpen.GetOr(0.0) }
  function BrightnessFactor(ops: Ops): real { ops.brightness.GetOr(1.0) }
  function ContrastFactor(ops: Ops): real { ops.contrast.GetOr(1.0) }
  function SaturationFactor(ops: Ops): real { ops.saturation.GetOr(1.0) }

  // ---------------------------------------------------------------------
  // The in-process (Pillow) steps

  /** One in-process filter: auto-levels, a 3x3 median pass, or an `ImageEnhance` factor. */
  datatype PilStep = AutoLevels | MedianFilter(size: nat) | Brightness(factor: real)
                   | Contrast(factor: real) | Color(factor: real) | Sharpness(factor: real)

  /** The position of a step's kind in the fixed order. */
  function Rank(step: PilStep): nat
  {
    match step
    case AutoLevels => 0
    case MedianFilter(_) => 1
    case Brightness(_) => 2
    case Contrast(_) => 3
    case Color(_) => 4
    case Sharpness(_) => 5
  }

  function Repeat(step: PilStep, n: nat): (r: seq<PilStep>)
    ensures |r| == n && forall i :: 0 <= i < n ==> r[i] == step
  {
    if n == 0 then [] else Repeat(step, n - 1) + [step]
  }

  /**
   * The steps of stage k of `_apply_pil_enhancements`: 0 auto-levels, 1 denoise,
   * 2 brightness, 3 contrast, 4 saturation, 5 sharpen; each empty unless enabled.
   */
  function Stage(ops: Ops, k: nat): seq<PilStep>
  {
    if k == 0 then (if AutoLevelsOn(ops) then [AutoLevels] else [])
    else if k == 1 then (if DenoiseLevel(ops) > 0 then Repeat(MedianFilter(3), DenoiseLevel(ops)) else [])
    else if k == 2 then (if BrightnessFactor(ops) != 1.0 then [Brightness(BrightnessFactor(ops))] else [])
    else if k == 3 then (if ContrastFactor(ops) != 1.0 then [Contrast(ContrastFactor(ops))] else [])
    else if k == 4 then (if SaturationFactor(ops) != 1.0 then [Color(SaturationFactor(ops))] else [])
    else if k == 5 then (if SharpenAmount(ops) > 0.0 then [Sharpness(1.0 + SharpenAmount(ops))] else [])
    else []
  }

  /** The first n stages, in order. */
  function StagesUpTo(ops: Ops, n: nat): seq<PilStep>
  {
    if n == 0 then [] else StagesUpTo(ops, n - 1) + Stage(ops, n - 1)
  }

  const StageCount: nat := 6

  /** The steps `_apply_pil_enhancements` applies for a dictionary, in the order it applies them. */
  function PilPlan(ops: Ops): seq<PilStep>
  {
    StagesUpTo(ops, StageCount)
  }

  /** `_apply_pil_enhancements(img, operations)`: each enabled step in turn, the median filter `denoise` times. */
  method ApplyPilEnhancements(ops: Ops) returns (steps: seq<PilStep>)
    ensures steps == PilPlan(ops)
  {
    steps := [];
    if ops.autoLevels == Some(true) {
      steps := steps + [AutoLevels];
    }
    assert steps == StagesUpTo(ops, 1);
    var denoiseLevel := ops.denoise.GetOr(0);
    if denoiseLevel > 0 {
      ghost var before := steps;
      for i := 0 to denoiseLevel
        invariant steps == before + Repeat(MedianFilter(3), i)
      {
        steps := steps + [MedianFilter(3)];
      }
    }
    assert steps == StagesUpTo(ops, 2);
    var brightness := ops.brightness.GetOr(1.0);
    if brightness != 1.0 {
      steps := steps + [Brightness(brightness)];
    }
    assert steps == StagesUpTo(ops, 3);
    var contrast := ops.contrast.GetOr(1.0);
    if contrast != 1.0 {
      steps := steps + [Contrast(contrast)];
    }
    assert steps == StagesUpTo(ops, 4);
    var saturation := ops.saturation.GetOr(1.0);
    if saturation != 1.0 {
      steps := steps + [Color(saturation)];
    }
    assert steps == StagesUpTo(ops, 5);
    var sharpen := ops.sharpen.GetOr(0.0);
    if sharpen > 0.0 {
      steps := steps + [Sharpness(1.0 + sharpen)];
    }
  }

  /** Every step of stage k has rank k. */
  lemma StageRank(ops: Ops, k: nat)
    ensures forall i :: 0 <= i < |Stage(ops, k)| ==> Rank(Stage(ops, k)[i]) == k
  {
  }

  predicate RankOrdered(steps: seq<PilStep>)
  {
    forall i, j :: 0 <= i < j < |steps| ==> Rank(steps[i]) <= Rank(steps[j])
  }

  /** The first n stages are ordered by rank, and every rank is below n. */
  lemma {:induction false} StagesUpToOrdered(ops: Ops, n: nat)
    ensures RankOrdered(StagesUpTo(ops, n))
    ensures forall i :: 0 <= i < |StagesUpTo(ops, n)| ==> Rank(StagesUpTo(ops, n)[i]) < n
  {
    if n > 0 {
      StagesUpToOrdered(ops, n - 1);
      StageRank(ops, n - 1);
      var s, t := StagesUpTo(ops, n - 1), Stage(ops, n - 1);
      assert StagesUpTo(ops, n) == s + t;
      forall i | 0 <= i < |s + t| ensures (s + t)[i] == if i < |s| then s[i] else t[i - |s|] {
      }
    }
  }

  /** The steps run in the fixed order auto-levels, denoise, brightness, contrast, saturation, sharpen. */
  lemma PilPlanOrdered(ops: Ops)
    ensures RankOrdered(PilPlan(ops))
  {
    StagesUpToOrdered(ops, StageCount);
  }

  /** A step occurs among the first n stages exactly when it occurs in its own stage and that stage is one of them. */
  lemma {:induction false} InStagesUpTo(ops: Ops, n: nat, step: PilStep)
    ensures step in StagesUpTo(ops, n) <==> Rank(step) < n && step in Stage(ops, Rank(step))
  {
    if n > 0 {
      InStagesUpTo(ops, n - 1, step);
      StageRank(ops, n - 1);
      assert StagesUpTo(ops, n) == StagesUpTo(ops, n - 1) + Stage(ops, n - 1);
    }
  }

  /** How many times `step` occurs in `steps`. */
  function Occurrences(steps: seq<PilStep>, step: PilStep): nat
  {
    if steps == [] then 0
    else Occurrences(steps[..|steps| - 1], step) + (if steps[|steps| - 1] == step then 1 else 0)
  }

  lemma {:induction false} OccurrencesAppend(a: seq<PilStep>, b: seq<PilStep>, step: PilStep)
    ensures Occurrences(a + b, step) == Occurrences(a, step) + Occurrences(b, step)
  {
    if b == [] {
      assert a + b == a;
    } else {
      OccurrencesAppend(a, b[..|b| - 1], step);
      assert (a + b)[..|a + b| - 1] == a + b[..|b| - 1];
      assert (a + b)[|a + b| - 1] == b[|b| - 1];
    }
  }

  lemma {:induction false} OccurrencesMultiset(steps: seq<PilStep>, step: PilStep)
    ensures multiset(steps)[step] == Occurrences(steps, step)
  {
    if steps != [] {
      var front := steps[..|steps| - 1];
      OccurrencesMultiset(front, step);
      assert steps == front + [steps[|steps| - 1]];
      assert multiset(steps) == multiset(front) + multiset{steps[|steps| - 1]};
    }
  }

  lemma {:induction false} RepeatCount(step: PilStep, n: nat)
    ensures Occurrences(Repeat(step, n), step) == n
  {
    if n > 0 {
      RepeatCount(step, n - 1);
      assert Repeat(step, n)[..n - 1] == Repeat(step, n - 1);
    }
  }

  /** Only stage 1 holds median passes, `denoise` of them when it is positive. */
  lemma StageMedianCount(ops: Ops, k: nat)
    ensures Occurrences(Stage(ops, k), MedianFilter(3)) == if k == 1 && DenoiseLevel(ops) > 0 then DenoiseLevel(ops) else 0
  {
    if k == 1 && DenoiseLevel(ops) > 0 {
      RepeatCount(MedianFilter(3), DenoiseLevel(ops));
    }
  }

  /** The number of median passes among the first n stages. */
  lemma {:induction false} MedianCount(ops: Ops, n: nat)
    ensures Occurrences(StagesUpTo(ops, n), MedianFilter(3)) == if n >= 2 && DenoiseLevel(ops) > 0 then DenoiseLevel(ops) else 0
  {
    if n > 0 {
      MedianCount(ops, n - 1);
      StageMedianCount(ops, n - 1);
      OccurrencesAppend(StagesUpTo(ops, n - 1), Stage(ops, n - 1), MedianFilter(3));
    }
  }

  /**
   * Auto-levels runs exactly when its flag is true, and denoise applies exactly `denoise`
   * median passes of size 3 when it is positive and none otherwise.
   */
  lemma PilPlanSteps(ops: Ops)
    ensures AutoLevels in PilPlan(ops) <==> AutoLevelsOn(ops)
    ensures multiset(PilPlan(ops))[MedianFilter(3)] == if DenoiseLevel(ops) > 0 then DenoiseLevel(ops) else 0
    ensures forall size :: MedianFilter(size) in PilPlan(ops) ==> size == 3
  {
    InStagesUpTo(ops, StageCount, AutoLevels);
    MedianCount(ops, StageCount);
    OccurrencesMultiset(PilPlan(ops), MedianFilter(3));
    forall size ensures MedianFilter(size) in PilPlan(ops) ==> size == 3 {
      InStagesUpTo(ops, StageCount, MedianFilter(size));
    }
  }

  /**
   * Each factor step runs exactly when its factor is not 1.0, with that factor, and
   * sharpening runs with factor `1.0 + sharpen` exactly when `sharpen` is positive.
   */
  lemma PilPlanFactors(ops: Ops)
    ensures forall f :: Brightness(f) in PilPlan(ops) <==> BrightnessFactor(ops) != 1.0 && f == BrightnessFactor(ops)
    ensures forall f :: Contrast(f) in PilPlan(ops) <==> ContrastFactor(ops) != 1.0 && f == ContrastFactor(ops)
    ensures forall f :: Color(f) in PilPlan(ops) <==> SaturationFactor(ops) != 1.0 && f == SaturationFactor(ops)
    ensures forall f :: Sharpness(f) in PilPlan(ops) <==> SharpenAmount(ops) > 0.0 && f == 1.0 + SharpenAmount(ops)
  {
    forall f ensures Brightness(f) in PilPlan(ops) <==> BrightnessFactor(ops) != 1.0 && f == BrightnessFactor(ops) {
      InStagesUpTo(ops, StageCount, Brightness(f));
    }
    forall f ensures Contrast(f) in PilPlan(ops) <==> ContrastFactor(ops) != 1.0 && f == ContrastFactor(ops) {
      InStagesUpTo(ops, StageCount, Contrast(f));
    }
    forall f ensures Color(f) in PilPlan(ops) <==> SaturationFactor(ops) != 1.0 && f == SaturationFactor(ops) {
      InStagesUpTo(ops, StageCount, Color(f));
    }
    forall f ensures Sharpness(f) in PilPlan(ops) <==> SharpenAmount(ops) > 0.0 && f == 1.0 + SharpenAmount(ops) {
      InStagesUpTo(ops, StageCount, Sharpness(f));
    }
  }

  /** Nothing is applied exactly when every key is absent or holds its no-op value. */
  lemma PilPlanEmptyIff(ops: Ops)
    ensures PilPlan(ops) == [] <==>
      && !AutoLevelsOn(ops) && DenoiseLevel(ops) <= 0 && BrightnessFactor(ops) == 1.0
      && ContrastFactor(ops) == 1.0 && SaturationFactor(ops) == 1.0 && SharpenAmount(ops) <= 0.0
  {
    PilPlanSteps(ops);
    PilPlanFactors(ops);
    if DenoiseLevel(ops) > 0 {
      assert multiset(PilPlan(ops))[MedianFilter(3)] > 0;
      assert MedianFilter(3) in PilPlan(ops);
    }
    assert PilPlan(ops) == StagesUpTo(ops, 5) + Stage(ops, 5);
    assert StagesUpTo(ops, 5) == StagesUpTo(ops, 4) + Stage(ops, 4);
    assert StagesUpTo(ops, 4) == StagesUpTo(ops, 3) + Stage(ops, 3);
    assert StagesUpTo(ops, 3) == StagesUpTo(ops, 2) + Stage(ops, 2);
    assert StagesUpTo(ops, 2) == StagesUpTo(ops, 1) + Stage(ops, 1);
    assert StagesUpTo(ops, 1) == Stage(ops, 0);
  }

  // ---------------------------------------------------------------------
  // The GIMP (Script-Fu) commands

  /** One Script-Fu call of the generated script. */
  datatype ScriptCmd = FileLoad(path: string)
                     | Despeckle(size: int, kind: int, black: int, white: int)
                     | LevelsStretch
                     | UnsharpMask(radius: real, amount: real, threshold: int)
                     | PngSave(path: string, compression: int)
                     | ImageDelete

  function ScriptRank(cmd: ScriptCmd): nat
  {
    match cmd
    case FileLoad(_) => 0
    case Despeckle(_, _, _, _) => 1
    case LevelsStretch => 2
    case UnsharpMask(_, _, _) => 3
    case PngSave(_, _) => 4
    case ImageDelete => 5
  }

  function Min(a: real, b: real): real
  {
    if a <= b then a else b
  }

  /** The unsharp radius `min(5.0, sharpen * 5)` and amount `min(1.5, sharpen * 2)`. */
  function UnsharpFor(sharpen: real): ScriptCmd
  {
    UnsharpMask(Min(5.0, sharpen * 5.0), Min(1.5, sharpen * 2.0), 0)
  }

  /** Part k of the script: 0 load, 1 despeckle, 2 levels-stretch, 3 unsharp-mask, 4 save, 5 delete. */
  function ScriptPart(inputPath: string, outputPath: string, ops: Ops, k: nat): seq<ScriptCmd>
  {
    if k == 0 then [FileLoad(inputPath)]
    else if k == 1 then (if DespeckleOn(ops) then [Despeckle(3, 1, 7, 248)] else [])
    else if k == 2 then (if AutoLevelsOn(ops) then [LevelsStretch] else [])
    else if k == 3 then (if SharpenAmount(ops) > 0.0 then [UnsharpFor(SharpenAmount(ops))] else [])
    else if k == 4 then [PngSave(outputPath, 9)]
    else if k == 5 then [ImageDelete]
    else []
  }

  function ScriptUpTo(inputPath: string, outputPath: string, ops: Ops, n: nat): seq<ScriptCmd>
  {
    if n == 0 then [] else ScriptUpTo(inputPath, outputPath, ops, n - 1) + ScriptPart(inputPath, outputPath, ops, n - 1)
  }

  /** The commands of the script `_build_gimp_script` writes, in order. */
  function GimpScript(inputPath: string, outputPath: string, ops: Ops): seq<ScriptCmd>
  {
    ScriptUpTo(inputPath, outputPath, ops, 6)
  }

  /** `_build_gimp_script(input_path, output_path, operations)`: the script grown piece by piece. */
  method BuildGimpScript(inputPath: string, outputPath: string, ops: Ops) returns (script: seq<ScriptCmd>)
    ensures script == GimpScript(inputPath, outputPath, ops)
  {
    script := [FileLoad(inputPath)];
    assert script == ScriptUpTo(inputPath, outputPath, ops, 1);
    if ops.despeckle == Some(true) {
      script := script + [Despeckle(3, 1, 7, 248)];
    }
    assert script == ScriptUpTo(inputPath, outputPath, ops, 2);
    if ops.autoLevels == Some(true) {
      script := script + [LevelsStretch];
    }
    assert script == ScriptUpTo(inputPath, outputPath, ops, 3);
    var sharpen := ops.sharpen.GetOr(0.0);
    if sharpen > 0.0 {
      var radius := Min(5.0, sharpen * 5.0);
      var amount := Min(1.5, sharpen * 2.0);
      script := script + [UnsharpMask(radius, amount, 0)];
    }
    assert script == ScriptUpTo(inputPath, outputPath, ops, 4);
    script := script + [PngSave(outputPath, 9)];
    assert script == ScriptUpTo(inputPath, outputPath, ops, 5);
    script := script + [ImageDelete];
  }

  /** Every part holds at most one command, of rank k. */
  lemma ScriptPartRank(inputPath: string, outputPath: string, ops: Ops, k: nat)
    requires k < 6
    ensures |ScriptPart(inputPath, outputPath, ops, k)| <= 1
    ensures forall c :: c in ScriptPart(inputPath, outputPath, ops, k) ==> ScriptRank(c) == k
  {
  }

  predicate StrictlyRanked(s: seq<ScriptCmd>)
  {
    forall i, j :: 0 <= i < j < |s| ==> ScriptRank(s[i]) < ScriptRank(s[j])
  }

  lemma StrictlyRankedAppend(s: seq<ScriptCmd>, t: seq<ScriptCmd>, r: nat)
    requires StrictlyRanked(s) && forall i :: 0 <= i < |s| ==> ScriptRank(s[i]) < r
    requires |t| <= 1 && forall i :: 0 <= i < |t| ==> ScriptRank(t[i]) == r
    ensures StrictlyRanked(s + t)
  {
    forall i, j | 0 <= i < j < |s + t| ensures ScriptRank((s + t)[i]) < ScriptRank((s + t)[j]) {
      if j < |s| {
        assert (s + t)[i] == s[i] && (s + t)[j] == s[j];
      } else {
        assert i < |s|;
        assert (s + t)[i] == s[i] && (s + t)[j] == t[j - |s|];
      }
    }
  }

  /** The first n parts are strictly increasing in rank, every rank below n. */
  lemma {:induction false} ScriptUpToOrdered(inputPath: string, outputPath: string, ops: Ops, n: nat)
    requires n <= 6
    ensures StrictlyRanked(ScriptUpTo(inputPath, outputPath, ops, n))
    ensures forall c :: c in ScriptUpTo(inputPath, outputPath, ops, n) ==> ScriptRank(c) < n
  {
    if n > 0 {
      ScriptUpToOrdered(inputPath, outputPath, ops, n - 1);
      ScriptPartRank(inputPath, outputPath, ops, n - 1);
      var s, t := ScriptUpTo(inputPath, outputPath, ops, n - 1), ScriptPart(inputPath, outputPath, ops, n - 1);
      assert ScriptUpTo(inputPath, outputPath, ops, n) == s + t;
      forall i | 0 <= i < |s| ensures ScriptRank(s[i]) < n - 1 {
        assert s[i] in s;
      }
      forall i | 0 <= i < |t| ensures ScriptRank(t[i]) == n - 1 {
        assert t[i] in t;
      }
      StrictlyRankedAppend(s, t, n - 1);
    }
  }

  /** A command occurs among the first n parts exactly when it occurs in the part of its rank and that part is one of them. */
  lemma {:induction false} InScriptUpTo(inputPath: string, outputPath: string, ops: Ops, n: nat, cmd: ScriptCmd)
    requires n <= 6
    ensures cmd in ScriptUpTo(inputPath, outputPath, ops, n) <==>
      ScriptRank(cmd) < n && cmd in ScriptPart(inputPath, outputPath, ops, ScriptRank(cmd))
  {
    if n > 0 {
      InScriptUpTo(inputPath, outputPath, ops, n - 1, cmd);
      ScriptPartRank(inputPath, outputPath, ops, n - 1);
      assert ScriptUpTo(inputPath, outputPath, ops, n)
        == ScriptUpTo(inputPath, outputPath, ops, n - 1) + ScriptPart(inputPath, outputPath, ops, n - 1);
    }
  }

  /**
   * The script loads the input first, saves to the output and deletes the image last,
   * with despeckle, levels-stretch and unsharp-mask between them, each at most once, in
   * that order and exactly when enabled; the unsharp radius is at most 5 and the amount
   * at most 1.5.
   */
  lemma GimpScriptFacts(inputPath: string, outputPath: string, ops: Ops)
    ensures var script := GimpScript(inputPath, outputPath, ops);
      && |script| >= 3 && script[0] == FileLoad(inputPath)
      && script[|script| - 2..] == [PngSave(outputPath, 9), ImageDelete]
      && StrictlyRanked(script)
    ensures Despeckle(3, 1, 7, 248) in GimpScript(inputPath, outputPath, ops) <==> DespeckleOn(ops)
    ensures LevelsStretch in GimpScript(inputPath, outputPath, ops) <==> AutoLevelsOn(ops)
    ensures forall r, a, t :: UnsharpMask(r, a, t) in GimpScript(inputPath, outputPath, ops) <==>
      SharpenAmount(ops) > 0.0 && UnsharpMask(r, a, t) == UnsharpFor(SharpenAmount(ops))
    ensures SharpenAmount(ops) > 0.0 ==>
      var u := UnsharpFor(SharpenAmount(ops)); 0.0 < u.radius <= 5.0 && 0.0 < u.amount <= 1.5
  {
    var script := GimpScript(inputPath, outputPath, ops);
    ScriptUpToOrdered(inputPath, outputPath, ops, 6);
    var front := ScriptUpTo(inputPath, outputPath, ops, 4);
    assert ScriptUpTo(inputPath, outputPath, ops, 5) == front + [PngSave(outputPath, 9)];
    assert script == ScriptUpTo(inputPath, outputPath, ops, 5) + [ImageDelete];
    assert script == front + [PngSave(outputPath, 9), ImageDelete];
    assert script[|script| - 2..] == [PngSave(outputPath, 9), ImageDelete];
    assert ScriptUpTo(inputPath, outputPath, ops, 1) == [FileLoad(inputPath)];
    assert ScriptUpTo(inputPath, outputPath, ops, 2) == ScriptUpTo(inputPath, outputPath, ops, 1) + ScriptPart(inputPath, outputPath, ops, 1);
    assert ScriptUpTo(inputPath, outputPath, ops, 3) == ScriptUpTo(inputPath, outputPath, ops, 2) + ScriptPart(inputPath, outputPath, ops, 2);
    assert front == ScriptUpTo(inputPath, outputPath, ops, 3) + ScriptPart(inputPath, outputPath, ops, 3);
    assert script[0] == FileLoad(inputPath);
    InScriptUpTo(inputPath, outputPath, ops, 6, Despeckle(3, 1, 7, 248));
    InScriptUpTo(inputPath, outputPath, ops, 6, LevelsStretch);
    forall r, a, t ensures UnsharpMask(r, a, t) in script <==>
      SharpenAmount(ops) > 0.0 && UnsharpMask(r, a, t) == UnsharpFor(SharpenAmount(ops))
    {
      InScriptUpTo(inputPath, outputPath, ops, 6, UnsharpMask(r, a, t));
    }
  }

  // ---------------------------------------------------------------------
  // Auto-levels

  datatype Mode = L | RGB | RGBA | OtherMode(name: string)

  /** An image as its mode and its channels (bands), each a list of sample values. */
  datatype Image = Image(mode: Mode, bands: seq<seq<real>>)

  function BandCount(mode: Mode): Option<nat>
  {
    match mode
    case L => Some(1)
    case RGB => Some(3)
    case RGBA => Some(4)
    case OtherMode(_) => None
  }

  /** The shape Pillow guarantees: as many non-empty bands as the mode has channels. */
  predicate WellFormed(img: Image)
  {
    && (BandCount(img.mode).Some? ==> |img.bands| == BandCount(img.mode).value)
    && forall i :: 0 <= i < |img.bands| ==> |img.bands[i]| >= 1
  }

  function SeqMin(s: seq<real>): (m: real)
    requires |s| >= 1
    ensures m in s && forall i :: 0 <= i < |s| ==> m <= s[i]
  {
    if |s| == 1 then s[0] else var m := SeqMin(s[1..]); if s[0] <= m then s[0] else m
  }

  function SeqMax(s: seq<real>): (m: real)
    requires |s| >= 1
    ensures m in s && forall i :: 0 <= i < |s| ==> s[i] <= m
  {
    if |s| == 1 then s[0] else var m := SeqMax(s[1..]); if s[0] >= m then s[0] else m
  }

  /** The stretch `x * scale + offset` with `scale = 255 / (hi - lo)` and `offset = -lo * scale`. */
  function Stretch(x: real, lo: real, hi: real): real
    requires lo < hi
  {
    var scale := 255.0 / (hi - lo);
    x * scale + -lo * scale
  }

  /** One channel's histogram stretch, unless the channel is constant. */
  function StretchBand(band: seq<real>): (r: seq<real>)
    requires |band| >= 1
    ensures |r| == |band|
  {
    var lo, hi := SeqMin(band), SeqMax(band);
    if lo == hi then band
    else seq(|band|, i requires 0 <= i < |band| => Stretch(band[i], lo, hi))
  }

  lemma StretchTop(lo: real, hi: real)
    requires lo < hi
    ensures Stretch(hi, lo, hi) == 255.0
  {
    var scale := 255.0 / (hi - lo);
    assert Stretch(hi, lo, hi) == hi * scale + -lo * scale;
    assert hi * scale + -lo * scale == (hi - lo) * scale;
    assert (hi - lo) * scale == 255.0;
  }

  lemma StretchFacts(x: real, lo: real, hi: real)
    requires lo <= x <= hi && lo < hi
    ensures 0.0 <= Stretch(x, lo, hi) <= 255.0
    ensures x == lo ==> Stretch(x, lo, hi) == 0.0
    ensures x == hi ==> Stretch(x, lo, hi) == 255.0
  {
    var scale := 255.0 / (hi - lo);
    assert scale * (hi - lo) == 255.0;
    assert Stretch(x, lo, hi) == (x - lo) * scale;
    assert 0.0 <= (x - lo) * scale;
    assert (x - lo) * scale <= (hi - lo) * scale;
    if x == hi {
      StretchTop(lo, hi);
    }
  }

  lemma StretchMonotone(x: real, y: real, lo: real, hi: real)
    requires x <= y && lo < hi
    ensures Stretch(x, lo, hi) <= Stretch(y, lo, hi)
  {
    var scale := 255.0 / (hi - lo);
    assert scale > 0.0;
    assert Stretch(y, lo, hi) - Stretch(x, lo, hi) == (y - x) * scale;
  }

  /** A constant channel is left as it is. */
  lemma StretchBandConstant(band: seq<real>)
    requires |band| >= 1 && SeqMin(band) == SeqMax(band)
    ensures StretchBand(band) == band
  {
  }

  /** A non-constant channel's sample i becomes `Stretch(band[i], min, max)`. */
  lemma StretchBandAt(band: seq<real>, i: nat)
    requires |band| >= 1 && SeqMin(band) < SeqMax(band) && i < |band|
    ensures StretchBand(band)[i] == Stretch(band[i], SeqMin(band), SeqMax(band))
  {
  }

  /**
   * Every sample of a non-constant channel lands in [0, 255], with the channel's minimum
   * going to 0 and its maximum to 255.
   */
  lemma StretchBandRange(band: seq<real>)
    requires |band| >= 1 && SeqMin(band) < SeqMax(band)
    ensures forall i :: 0 <= i < |band| ==> 0.0 <= StretchBand(band)[i] <= 255.0
    ensures forall i :: 0 <= i < |band| && band[i] == SeqMin(band) ==> StretchBand(band)[i] == 0.0
    ensures forall i :: 0 <= i < |band| && band[i] == SeqMax(band) ==> StretchBand(band)[i] == 255.0
  {
    var lo, hi := SeqMin(band), SeqMax(band);
    forall i | 0 <= i < |band|
      ensures 0.0 <= StretchBand(band)[i] <= 255.0
      ensures band[i] == lo ==> StretchBand(band)[i] == 0.0
      ensures band[i] == hi ==> StretchBand(band)[i] == 255.0
    {
      StretchBandAt(band, i);
      StretchFacts(band[i], lo, hi);
    }
  }

  /** Stretching keeps the order of samples. */
  lemma StretchBandMonotone(band: seq<real>)
    requires |band| >= 1 && SeqMin(band) < SeqMax(band)
    ensures forall i, j :: 0 <= i < |band| && 0 <= j < |band| && band[i] <= band[j] ==>
      StretchBand(band)[i] <= StretchBand(band)[j]
  {
    forall i, j | 0 <= i < |band| && 0 <= j < |band| && band[i] <= band[j]
      ensures StretchBand(band)[i] <= StretchBand(band)[j]
    {
      StretchBandAt(band, i);
      StretchBandAt(band, j);
      StretchMonotone(band[i], band[j], SeqMin(band), SeqMax(band));
    }
  }

  /** `_auto_levels(img)` on a supported mode: which bands are stretched. */
  predicate Stretched(mode: Mode, i: nat)
  {
    (mode == L && i == 0) || ((mode == RGB || mode == RGBA) && i < 3)
  }

  /**
   * `_auto_levels(img)`: images of other modes come back unchanged; for L the single
   * channel, for RGB and RGBA the first three channels are stretched one by one, and
   * the alpha channel is passed through.
   */
  method AutoLevelsImage(img: Image) returns (out: Image)
    requires WellFormed(img)
    ensures out.mode == img.mode && |out.bands| == |img.bands|
    ensures img.mode.OtherMode? ==> out == img
    ensures forall i :: 0 <= i < |img.bands| ==>
      out.bands[i] == if Stretched(img.mode, i) then StretchBand(img.bands[i]) else img.bands[i]
    ensures img.mode == RGBA ==> out.bands[3] == img.bands[3]
  {
    if img.mode.OtherMode? {
      return img;
    }
    if img.mode == L {
      return Image(L, [StretchBand(img.bands[0])]);
    }
    var processed: seq<seq<real>> := [];
    for i := 0 to |img.bands|
      invariant |processed| == i
      invariant forall t :: 0 <= t < i ==>
        processed[t] == if t < 3 then StretchBand(img.bands[t]) else img.bands[t]
    {
      var channel := img.bands[i];
      if i < 3 {
        channel := StretchBand(channel);
      }
      processed := processed + [channel];
    }
    out := Image(img.mode, processed);
  }

  // ---------------------------------------------------------------------
  // Results, GIMP discovery and `enhance`

  /** The result dictionary: status, code, message and output path. */
  datatype EnhanceResult = EnhanceResult(status: string, code: string, message: string, outputPath: Option<string>)

  /** `_success(output_path)` */
  function Success(outputPath: string): (r: EnhanceResult)
    ensures r.status == "ok" && r.code == "success" && r.outputPath == Some(outputPath)
  {
    EnhanceResult("ok", "success", "Enhancement completed successfully", Some(outputPath))
  }

  /** `_error(code, message)` */
  function Error(code: string, message: string): (r: EnhanceResult)
    ensures r.status == "error" && r.code == code && r.message == message && r.outputPath.None?
  {
    EnhanceResult("error", code, message, None)
  }

  /** The places `_find_gimp` probes, in order. */
  const GimpCandidates: seq<string> :=
    ["/Applications/GIMP.app/Contents/MacOS/gimp", "/usr/local/bin/gimp", "/usr/bin/gimp", "gimp"]

  /** What running `<path> --version` does: exits with a code, times out, or finds no such file. */
  datatype ProbeResult = ExitStatus(code: int) | ProbeTimedOut | NotFound

  predicate Passes(r: ProbeResult)
  {
    r.ExitStatus? && r.code == 0
  }

  /** The first candidate whose probe exits with status 0. */
  function FirstPassing(candidates: seq<string>, probe: string -> ProbeResult): (r: Option<string>)
    ensures r.Some? ==> exists i :: (0 <= i < |candidates| && candidates[i] == r.value &&
      Passes(probe(candidates[i])) && forall j :: 0 <= j < i ==> !Passes(probe(candidates[j])))
    ensures r.None? <==> forall j :: 0 <= j < |candidates| ==> !Passes(probe(candidates[j]))
  {
    if candidates == [] then None
    else if Passes(probe(candidates[0])) then Some(candidates[0])
    else
      var r := FirstPassing(candidates[1..], probe);
      assert forall j :: 1 <= j < |candidates| ==> candidates[j] == candidates[1..][j - 1];
      r
  }

  /** `_find_gimp()`: the candidates are probed in order; the first that exits 0 is returned. */
  method FindGimp(probe: string -> ProbeResult) returns (path: Option<string>)
    ensures path == FirstPassing(GimpCandidates, probe)
  {
    var i := 0;
    while i < |GimpCandidates|
      invariant 0 <= i <= |GimpCandidates|
      invariant FirstPassing(GimpCandidates, probe) == FirstPassing(GimpCandidates[i..], probe)
    {
      var result := probe(GimpCandidates[i]);
      if result.ExitStatus? && result.code == 0 {
        return Some(GimpCandidates[i]);
      }
      assert GimpCandidates[i..][1..] == GimpCandidates[i + 1..];
      i := i + 1;
    }
    path := None;
  }

  /** What the GIMP subprocess did: exited (with its stderr and whether the output exists), timed out, or raised. */
  datatype GimpRun = Exited(code: int, stderr: string, producedOutput: bool) | TimedOut | Raised(message: string)

  /** `_apply_gimp_enhancements`'s result for a run of the subprocess. */
  function GimpResult(run: GimpRun, outputPath: string): (r: EnhanceResult)
    ensures r.status == "ok" <==> run.Exited? && run.code == 0 && run.producedOutput
  {
    match run
    case Exited(code, stderr, produced) =>
      if code != 0 then Error("gimp_failed", "GIMP returned error: " + stderr)
      else if !produced then Error("gimp_no_output", "GIMP did not produce output file")
      else Success(outputPath)
    case TimedOut => Error("gimp_timeout", "GIMP operation timed out")
    case Raised(message) => Error("gimp_error", message)
  }

  /** What `enhance` finds: whether the input exists, the mode it opens in (or the error opening it raises), and the GIMP run. */
  datatype Env = Env(inputExists: bool, opening: Opening, gimp: GimpRun)
  datatype Opening = Opened(mode: Mode) | OpenFailed(message: string)

  /** What ends up at the output path: the in-process result, or GIMP's output from it. */
  datatype Artifact = PilImage(mode: Mode, steps: seq<PilStep>)
                    | GimpImage(mode: Mode, steps: seq<PilStep>, script: seq<ScriptCmd>)

  /** The result of `enhance`, what it wrote to the output path, and a temporary file it left behind. */
  datatype Enhanced = Enhanced(result: EnhanceResult, written: Option<Artifact>, strayTemp: Option<string>)

  /** Images other than RGB and RGBA are converted to RGB before processing. */
  function WorkingMode(mode: Mode): Mode
  {
    if mode == RGB || mode == RGBA then mode else RGB
  }

  function TempPath(outputPath: string): string
  {
    outputPath + ".temp.png"
  }

  /** `enhance(image_path, output_path, preset, operations)` as a value. */
  function EnhanceOutcome(useGimp: bool, imagePath: string, outputPath: string, preset: string,
                          operations: Option<Ops>, env: Env): Enhanced
  {
    if !env.inputExists then Enhanced(Error("input_not_found", "Input image not found: " + imagePath), None, None)
    else if operations.None? && preset !in Presets then Enhanced(Error("invalid_preset", "Unknown preset: " + preset), None, None)
    else
      var ops := if operations.Some? then operations.value else Presets[preset];
      match env.opening
      case OpenFailed(message) => Enhanced(Error("enhancement_failed", message), None, None)
      case Opened(mode) =>
        var steps := PilPlan(ops);
        var working := WorkingMode(mode);
        if !useGimp then Enhanced(Success(outputPath), Some(PilImage(working, steps)), None)
        else if GimpResult(env.gimp, outputPath).status == "error" then
          Enhanced(Success(outputPath), Some(PilImage(working, steps)), Some(TempPath(outputPath)))
        else
          Enhanced(Success(outputPath), Some(GimpImage(working, steps, GimpScript(TempPath(outputPath), outputPath, ops))), None)
  }

  class ImageEnhancer {
    var useGimp: bool
    var gimpPath: Option<string>

    /**
     * `ImageEnhancer(use_gimp, gimp_path)`: an empty or absent path is looked up with
     * `_find_gimp`; asking for GIMP when none is found turns GIMP off.
     */
    constructor (useGimp: bool, gimpPath: Option<string>, probe: string -> ProbeResult)
      ensures this.gimpPath ==
        if gimpPath.Some? && gimpPath.value != "" then gimpPath else FirstPassing(GimpCandidates, probe)
      ensures this.useGimp == (useGimp && this.gimpPath.Some?)
    {
      var path := gimpPath;
      if !(gimpPath.Some? && gimpPath.value != "") {
        path := FindGimp(probe);
      }
      this.useGimp := useGimp;
      this.gimpPath := path;
      new;
      if useGimp && this.gimpPath.None? {
        this.useGimp := false;
      }
    }

    /**
     * `enhance(image_path, output_path, preset, operations)`: a missing input is
     * reported first, then an unknown preset when no operations are given; the in-process
     * steps always run, and when GIMP is on but fails their result is saved instead.
     */
    method Enhance(imagePath: string, outputPath: string, preset: string, operations: Option<Ops>, env: Env)
      returns (outcome: Enhanced)
      ensures outcome == EnhanceOutcome(useGimp, imagePath, outputPath, preset, operations, env)
    {
      if !env.inputExists {
        return Enhanced(Error("input_not_found", "Input image not found: " + imagePath), None, None);
      }
      var ops: Ops;
      if operations.None? {
        if preset !in Presets {
          return Enhanced(Error("invalid_preset", "Unknown preset: " + preset), None, None);
        }
        ops := Presets[preset];
      } else {
        ops := operations.value;
      }
      if env.opening.OpenFailed? {
        return Enhanced(Error("enhancement_failed", env.opening.message), None, None);
      }
      var mode := env.opening.mode;
      if !(mode == RGB || mode == RGBA) {
        mode := RGB;
      }
      var steps := ApplyPilEnhancements(ops);
      if useGimp {
        var tempPath := outputPath + ".temp.png";
        var script := BuildGimpScript(tempPath, outputPath, ops);
        var result := GimpResult(env.gimp, outputPath);
        if result.status == "error" {
          outcome := Enhanced(Success(outputPath), Some(PilImage(mode, steps)), Some(tempPath));
        } else {
          outcome := Enhanced(Success(outputPath), Some(GimpImage(mode, steps, script)), None);
        }
      } else {
        outcome := Enhanced(Success(outputPath), Some(PilImage(mode, steps)), None);
      }
    }
  }

  /** A missing input wins over every other error, whatever the preset and operations. */
  lemma MissingInputFirst(useGimp: bool, imagePath: string, outputPath: string, preset: string,
                          operations: Option<Ops>, env: Env)
    requires !env.inputExists
    ensures EnhanceOutcome(useGimp, imagePath, outputPath, preset, operations, env).result
      == Error("input_not_found", "Input image not found: " + imagePath)
  {
  }

  /**
   * An existing input is reported as an unknown preset exactly when no operations are
   * given and the preset is not one of light, medium, aggressive; custom operations
   * bypass the preset lookup.
   */
  lemma InvalidPresetIff(useGimp: bool, imagePath: string, outputPath: string, preset: string,
                         operations: Option<Ops>, env: Env)
    requires env.inputExists
    ensures EnhanceOutcome(useGimp, imagePath, outputPath, preset, operations, env).result.code == "invalid_preset"
      <==> operations.None? && preset !in {"light", "medium", "aggressive"}
  {
    assert Presets.Keys == {"light", "medium", "aggressive"};
  }

  /**
   * Once the input is found, the preset resolved and the image opened, `enhance`
   * succeeds and writes the output whether or not GIMP works: GIMP's output when it
   * does, the in-process result (leaving the temporary file behind) when it does not.
   */
  lemma GimpFallback(useGimp: bool, imagePath: string, outputPath: string, preset: string,
                     operations: Option<Ops>, env: Env)
    requires env.inputExists && (operations.Some? || preset in Presets) && env.opening.Opened?
    ensures var e := EnhanceOutcome(useGimp, imagePath, outputPath, preset, operations, env);
      var ops := if operations.Some? then operations.value else Presets[preset];
      && e.result == Success(outputPath)
      && e.written.Some? && e.written.value.steps == PilPlan(ops)
      && (e.written.value.GimpImage? <==> useGimp && GimpResult(env.gimp, outputPath).status == "ok")
      && (e.strayTemp.Some? <==> useGimp && GimpResult(env.gimp, outputPath).status == "error")
  {
  }

  /** The status is "ok" exactly when an output path is reported and something was written. */
  lemma StatusMatchesOutput(useGimp: bool, imagePath: string, outputPath: string, preset: string,
                            operations: Option<Ops>, env: Env)
    ensures var e := EnhanceOutcome(useGimp, imagePath, outputPath, preset, operations, env);
      && (e.result.status == "ok" <==> e.result.outputPath == Some(outputPath))
      && (e.result.status == "ok" <==> e.written.Some?)
      && (e.result.status == "ok" || e.result.status == "error")
  {
  }
}
