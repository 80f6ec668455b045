/**
 * The storyboard batch (batch_generate.py): one sketch panel per prompt, numbered from
 * 1, each failure caught so that the remaining prompts are still drawn.
 *
 * Whether `generate_image` raises for a panel is the parameter `raises`, keyed by the
 * panel's output path; the text width is `measure`, as in the sketch generator.
 */
module Batch {
  import opened Wrappers
  import Decimal
  import Paths
  import ImageGen

  const DefaultOutputDir: string := "storyboards"

  /** `sys.argv[1]` when given, else `storyboards`. */
  function BatchOutputDir(argv: seq<string>): (dir: string)
    ensures |argv| > 1 ==> dir == argv[1]
    ensures |argv| <= 1 ==> dir == DefaultOutputDir
  {
    if |argv| > 1 then argv[1] else DefaultOutputDir
  }

  /** `f"panel_{idx:03d}.png"` */
  function PanelFileName(idx: nat): string
  {
    "panel_" + Decimal.ZeroPad(idx, 3) + ".png"
  }

  function PanelPath(outputDir: string, idx: nat): string
  {
    Paths.Join(outputDir, PanelFileName(idx))
  }

  /** Panel names are `panel_` and at least three digits, exactly three below 1000, then `.png`. */
  lemma PanelFileNameShape(idx: nat)
    ensures var name := PanelFileName(idx);
      && name[..6] == "panel_" && name[|name| - 4..] == ".png"
      && Decimal.AllDigits(name[6..|name| - 4])
      && |name| >= 13
      && (idx < 1000 ==> |name| == 13)
      && '/' !in name
  {
    var digits := Decimal.ZeroPad(idx, 3);
    var name := PanelFileName(idx);
    assert name == "panel_" + digits + ".png";
    assert name[6..|name| - 4] == digits;
    if idx < 1000 {
      assert Decimal.Pow10(3) == 1000;
      Decimal.NatToStringShort(idx, 3);
    }
    assert forall i :: 0 <= i < |digits| ==> Decimal.IsDigit(digits[i]);
  }

  /** Different panel numbers give different output paths, so no panel overwrites another. */
  lemma PanelPathInjective(outputDir: string, i: nat, j: nat)
    requires PanelPath(outputDir, i) == PanelPath(outputDir, j)
    ensures i == j
  {
    PanelFileNameShape(i);
    PanelFileNameShape(j);
    Paths.BasenameJoin(outputDir, PanelFileName(i));
    Paths.BasenameJoin(outputDir, PanelFileName(j));
    var a, b := PanelFileName(i), PanelFileName(j);
    assert a == b;
    assert Decimal.ZeroPad(i, 3) == a[6..|a| - 4];
    assert Decimal.ZeroPad(j, 3) == b[6..|b| - 4];
    Decimal.ZeroPadInjective(i, j, 3);
  }

  /** One prompt's attempt: its number, its output path, and the sketch saved there unless `generate_image` raised. */
  datatype Attempt = Attempt(index: nat, prompt: string, outputFile: string, sketch: Option<ImageGen.Sketch>)

  /** What a batch did: the directory it created, each attempt in order, and the panel count it reports. */
  datatype BatchRun = BatchRun(createdDir: string, attempts: seq<Attempt>, reportedPanels: nat)

  /** The attempt for prompt number `idx` (from 1). */
  function AttemptFor(prompt: string, idx: nat, outputDir: string, raises: string -> bool,
                      measure: string -> int): Attempt
  {
    var file := PanelPath(outputDir, idx);
    Attempt(idx, prompt, file, if raises(file) then None else Some(ImageGen.SketchOf(prompt, file, measure)))
  }

  /** The number of panels actually saved. */
  function SavedCount(attempts: seq<Attempt>): nat
  {
    if attempts == [] then 0
    else SavedCount(attempts[..|attempts| - 1]) + (if attempts[|attempts| - 1].sketch.Some? then 1 else 0)
  }

  /** One iteration of the batch loop: the panel path, then the sketch unless `generate_image` raises. */
  method DrawPanel(prompt: string, idx: nat, outputDir: string, raises: string -> bool, measure: string -> int)
    returns (attempt: Attempt)
    ensures attempt == AttemptFor(prompt, idx, outputDir, raises, measure)
  {
    var outputFile := Paths.Join(outputDir, "panel_" + Decimal.ZeroPad(idx, 3) + ".png");
    assert outputFile == PanelPath(outputDir, idx);
    if raises(outputFile) {
      attempt := Attempt(idx, prompt, outputFile, None);
    } else {
      var madeDir, sketch := ImageGen.GenerateImage(prompt, outputFile, measure);
      attempt := Attempt(idx, prompt, outputFile, Some(sketch));
    }
  }

  /**
   * `generate_batch_storyboards(prompts, output_dir)`: the directory is created first,
   * then every prompt is attempted in order, a failure on one not stopping the next.
   */
  method GenerateBatchStoryboards(prompts: seq<string>, outputDir: string, raises: string -> bool,
                                  measure: string -> int)
    returns (run: BatchRun)
    ensures run.createdDir == outputDir
    ensures run.reportedPanels == |prompts|
    ensures |run.attempts| == |prompts|
    ensures forall i :: 0 <= i < |prompts| ==> run.attempts[i] == AttemptFor(prompts[i], i + 1, outputDir, raises, measure)
  {
    var attempts: seq<Attempt> := [];
    for i := 0 to |prompts|
      invariant |attempts| == i
      invariant forall t :: 0 <= t < i ==> attempts[t] == AttemptFor(prompts[t], t + 1, outputDir, raises, measure)
    {
      var attempt := DrawPanel(prompts[i], i + 1, outputDir, raises, measure);
      attempts := attempts + [attempt];
    }
    run := BatchRun(outputDir, attempts, |prompts|);
  }

  /**
   * Each attempt is numbered from 1 and written to its own panel path; the panel is
   * saved exactly when `generate_image` does not raise for it, as the sketch of its
   * prompt, whatever happened to the other panels.
   */
  lemma AttemptFacts(prompts: seq<string>, outputDir: string, raises: string -> bool, raises': string -> bool,
                     measure: string -> int, i: nat)
    requires i < |prompts|
    requires raises'(PanelPath(outputDir, i + 1)) == raises(PanelPath(outputDir, i + 1))
    ensures var a := AttemptFor(prompts[i], i + 1, outputDir, raises, measure);
      && a.index == i + 1 && a.prompt == prompts[i] && a.outputFile == PanelPath(outputDir, i + 1)
      && (a.sketch.Some? <==> !raises(a.outputFile))
      && (a.sketch.Some? ==>
            a.sketch.value.savedTo == a.outputFile && a.sketch.value.canvas == ImageGen.Canvas(1920, 1080, ImageGen.RGB, "white"))
      && a == AttemptFor(prompts[i], i + 1, outputDir, raises', measure)
  {
  }

  /** The reported count is the number of prompts, which is at least the number saved, and more when one of them raised. */
  lemma {:induction false} ReportedAtLeastSaved(attempts: seq<Attempt>)
    ensures SavedCount(attempts) <= |attempts|
    ensures SavedCount(attempts) == |attempts| <==> forall i :: 0 <= i < |attempts| ==> attempts[i].sketch.Some?
  {
    if attempts != [] {
      var front := attempts[..|attempts| - 1];
      ReportedAtLeastSaved(front);
      assert forall i :: 0 <= i < |front| ==> front[i] == attempts[i];
    }
  }
}
