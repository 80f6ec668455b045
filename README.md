# GimpMCP storyboard and animation pipeline, modelled in Dafny

GimpMCP turns text prompts into storyboard images and animated GIFs.
- A single-image generator draws a "storyboard draft" sketch. It can also ask hosted Stable Diffusion endpoints for an image first, and falls back to the sketch.
- A batch script draws one numbered panel per prompt.
- An animation assembler expands a prompt list with interpolated "transition" prompts. It generates one frame per prompt, validates the frames and compiles them into a GIF.
- An enhancement operator applies auto-levels, denoise, brightness, contrast, saturation and sharpening in process. It can optionally run a GIMP Script-Fu batch.
- A frame preprocessor runs that operator over a directory of frames and checks the frames' resolutions.

This project models the decision and sequencing logic of those programs and proves what the code promises about it. Pixels, files, the network and subprocesses become abstract inputs:
- whether a frame was generated;
- what opening a file yields;
- each endpoint's reply;
- each GIMP probe's exit status.

Modules (one per source file, plus helpers for Python's string and path built-ins):
- `ImageGen` models `MCP/gimp-image-gen/gimp_image_gen.py`: the greedy word wrap, line layout, sketch canvas, directory rule, and the endpoint-then-sketch fallback.
- `Animation` models `generate_animation.py`: frame duration and naming, the frame generation and validation loops, the GIF guard, prompt interpolation, and `main`'s exit status.
- `Enhance` models `enhance_image.py`: the presets, `_find_gimp` and the GIMP downgrade, `enhance`'s error precedence and fallback, the in-process step plan, the Script-Fu command sequence, auto-levels, and result dictionaries.
- `Preprocess` models `preprocess_frames.py`: batch enhancement into an output directory, resolution validation, and the `WIDTHxHEIGHT` argument.
- `Batch` models `batch_generate.py`: the per-prompt panel loop and the choice of output directory.
- Helper modules:
  - `Text`: `str.split()`, `str.split(c)`, `' '.join` and `strip`.
  - `Decimal`: `str(n)`, `f"{n:0Wd}"` and `int(s)`.
  - `Paths`: `posixpath` `join`, `dirname` and `basename`.
  - `Ordering`: string order and `sorted`.
  - `Wrappers`: `Option`.

The world outside the program is a set of parameters:
- text width is `measure: string -> int`, the `textbbox` width;
- HTTP is `reply: Request -> Reply`;
- `urllib.parse.quote` is `quote`;
- frame generation is `generated(prompt, path)`;
- `os.path.exists` plus `Image.open` is `probe`, `open` or `env`;
- `glob` is the list `matches`;
- the GIMP probe and run are `probe: string -> ProbeResult` and `GimpRun`.

Where the design notes and the code disagree, the model follows the code:
- A missing input gives `input_not_found` (enhance_image.py:99-100), not `missing_input`.
- An input that fails to open gives `enhancement_failed` (enhance_image.py:152-153).
- A size mismatch in `validate_frames` only warns (generate_animation.py:130-131).
- A failed validation does not stop GIF creation (generate_animation.py:286-290).
- The in-process steps run in the order auto-levels, denoise, brightness, contrast, saturation, sharpen.
- Despeckle appears only in the Script-Fu script.
- When GIMP fails, the in-process result is saved, and the temporary `<output>.temp.png` stays behind (enhance_image.py:129-136).

## Model

| member | source | states |
|---|---|---|
| Animation.FrameDuration | generate_animation.py:32 | A zero rate gives nothing, because the division raises. A positive rate r gives d with d*r <= 1000 < (d+1)*r, the integer quotient. A negative rate gives the quotient truncated toward zero. |
| Animation.AnimationGenerator.constructor | generate_animation.py:20-32 | Stores the directory, rate and resolution. The per-frame duration is the frame duration of the rate. |
| Animation.FrameFileNameShape | generate_animation.py:49 | Frame n's file name is `frame_`, a numeral of at least four digits whose value is n (exactly four below 10000), then `.png`. |
| Animation.FramePathInjective | generate_animation.py:49-50 | Different frame numbers give different paths in one directory. |
| Animation.AnimationGenerator.GenerateFrame | generate_animation.py:37-68 | Returns frame n's path under the output directory when generation succeeds, and nothing when it raises. |
| Animation.SucceededNumbers | generate_animation.py:100-107 | At most as many frame numbers as prompts. |
| Animation.SucceededNumbersMembers | generate_animation.py:100-103 | n is listed exactly when 1 <= n <= N and prompt n's frame was generated. |
| Animation.SucceededNumbersIncreasing | generate_animation.py:100-103 | The listed numbers lie in 1..N and strictly increase, so the frames keep prompt order. |
| Animation.AnimationGenerator.GenerateFrames | generate_animation.py:98-107 | The result is the paths of the generated frames, numbered from 1, in prompt order. |
| Animation.AnimationGenerator.ValidateFrames | generate_animation.py:109-141 | Valid exactly when every path exists and decodes. Missing and corrupt paths are listed as invalid, in order. Size mismatches are only collected. |
| Animation.InvalidFramesEmpty | generate_animation.py:121-141 | No invalid frame exactly when every path decodes, whatever the sizes. An empty list is valid. |
| Animation.AnimationGenerator.CreateGif | generate_animation.py:143-200 | An empty list gives nothing. Otherwise there is a GIF exactly when every frame opens and the save succeeds. It is written to `output_dir/output_filename`, has the first frame followed by the rest in order, and lasts `len(frames) * frame_duration`. |
| Animation.Stages | generate_animation.py:276-279 | Stages 1..j make exactly j prompts. |
| Animation.StagesAt | generate_animation.py:276-279 | Entry t is the transition prompt for stage t+1, of the form "Transition from (p) to (q), stage j/k". |
| Animation.ExpandPrefixLength | generate_animation.py:271-280 | After n of N prompts the list has n*k entries, or (N-1)*k+1 once all N are in. |
| Animation.ExpandPrefixExtends | generate_animation.py:271-280 | Each further prompt only appends to the expanded list. |
| Animation.InterpolatedLength | generate_animation.py:269-280 | With k > 1 and N >= 1 prompts, the expanded list has (N-1)*k + 1 entries. |
| Animation.NoInterpolation | generate_animation.py:269-270 | With k <= 1 the prompts are used unchanged. |
| Animation.InterpolatedAt | generate_animation.py:270-279 | Original prompt i sits at index i*k. Index i*k+j (0 < j < k) holds "Transition from (p_i) to (p_{i+1}), stage j/k". |
| Animation.SegmentAt | generate_animation.py:273-279 | Entry j of prompt i's segment is the prompt for j = 0, else stage j of its transition. |
| Animation.ExpandPrefixAt | generate_animation.py:271-280 | Segment i's entry j sits right after the first i segments. |
| Animation.ExpandPrompts | generate_animation.py:268-280 | The nested interpolation loop builds exactly the expanded prompt list. |
| Animation.AppendStages | generate_animation.py:276-279 | The inner loop appends the transitions of stages 1..k-1 in order. |
| Animation.RunMain | generate_animation.py:259-300 | A zero rate exits 1. Otherwise: frames are generated for the expanded prompts; the validation verdict is computed but does not gate the GIF; the exit status is 1 exactly when no GIF was written. |
| ImageGen.WrapStepInvariant | MCP/gimp-image-gen/gimp_image_gen.py:55-63 | One word of the wrap loop keeps the invariant. The lines so far plus the current line are the words so far. Lines are non-empty. Multi-word lines fit. Each line overflows with the next line's first word. |
| ImageGen.WrapRunInvariant | MCP/gimp-image-gen/gimp_image_gen.py:51-63 | The wrap invariant holds after every prefix of the words. |
| ImageGen.WrapGroupsProperties | MCP/gimp-image-gen/gimp_image_gen.py:51-66 | The flushed lines, as word lists, concatenate to the words. None is empty. Every line of two or more words measures at most the maximum width. The wrap is greedy. |
| ImageGen.WrapPreservesWords | MCP/gimp-image-gen/gimp_image_gen.py:51-66 | Splitting each drawn line and concatenating gives exactly `prompt.split()`. |
| ImageGen.WrapGroupAt | MCP/gimp-image-gen/gimp_image_gen.py:60-66 | Line k is its non-empty, fitting word group joined by spaces, and splits back into that group. |
| ImageGen.WrapGroupsOverflow | MCP/gimp-image-gen/gimp_image_gen.py:56-63 | Line k followed by the first word of line k+1 is wider than the maximum. |
| ImageGen.WrapLineFacts | MCP/gimp-image-gen/gimp_image_gen.py:47-66 | Every drawn line is non-empty. It measures at most 1720 unless it is a single word. It plus " " plus the next line's first word measures more than 1720. |
| ImageGen.TooWideWordAlone | MCP/gimp-image-gen/gimp_image_gen.py:55-63 | When a line measures at least each of its words, a word wider than 1720 is alone on its line. |
| ImageGen.WrapPrompt | MCP/gimp-image-gen/gimp_image_gen.py:51-66 | The wrap loop produces exactly the wrapped lines of the prompt. |
| ImageGen.LayOut | MCP/gimp-image-gen/gimp_image_gen.py:68-70 | Line k is drawn at x = 100, y = 150 + 50k. |
| ImageGen.DirToCreate | MCP/gimp-image-gen/gimp_image_gen.py:17-19 | A directory is created exactly when the output path contains a slash, so exactly when `dirname` is non-empty. |
| ImageGen.GenerateImage | MCP/gimp-image-gen/gimp_image_gen.py:7-96 | Creates the parent directory only when there is one. Draws on a 1920x1080 white RGB canvas whatever the prompt, with line k of the wrapped prompt at (100, 150 + 50k). Saves to the output path. |
| ImageGen.Requests | MCP/gimp-image-gen/gimp_image_gen.py:115-149 | Two requests in fixed order: a POST of the prompt to the Hugging Face URL, then a GET of the Pollinations URL with the quoted prompt, each with a 60-second timeout. |
| ImageGen.FirstOk | MCP/gimp-image-gen/gimp_image_gen.py:128-162 | Gives the first reply with status 200, with every earlier one not 200. Gives nothing exactly when no reply is 200. |
| ImageGen.GenerateWithAi | MCP/gimp-image-gen/gimp_image_gen.py:98-166 | Requests go out in order up to the first 200, whose body is saved unmodified. When none answers 200, each endpoint has been requested once and the sketch is drawn once. |
| Enhance.ApplyPilEnhancements | enhance_image.py:155-199 | The steps applied are exactly the plan for the dictionary. |
| Enhance.PilPlanOrdered | enhance_image.py:159-197 | The steps follow the order auto-levels, denoise, brightness, contrast, saturation, sharpen. |
| Enhance.InStagesUpTo | enhance_image.py:159-197 | A step occurs exactly when its own stage holds it. |
| Enhance.MedianCount | enhance_image.py:164-169 | The plan holds exactly `denoise` size-3 median passes when `denoise` is positive, and none otherwise. |
| Enhance.PilPlanSteps | enhance_image.py:159-169 | Auto-levels runs exactly when its flag is true. The multiset of steps holds `denoise` median passes (0 when denoise is not positive). Every median pass has size 3. |
| Enhance.PilPlanFactors | enhance_image.py:171-197 | Brightness, contrast and saturation each run exactly when the factor (default 1.0) is not 1.0, with that factor. Sharpness runs exactly when `sharpen` (default 0) is positive, with factor 1.0 + sharpen. |
| Enhance.PilPlanEmptyIff | enhance_image.py:155-199 | Nothing is applied exactly when every key is absent or holds its no-op value. |
| Enhance.BuildGimpScript | enhance_image.py:277-321 | The script built step by step is exactly the command sequence for the dictionary. |
| Enhance.ScriptUpToOrdered | enhance_image.py:279-319 | The commands strictly increase in kind: load, despeckle, levels-stretch, unsharp-mask, save, delete. |
| Enhance.InScriptUpTo | enhance_image.py:279-319 | A command occurs exactly when the part for its kind holds it. |
| Enhance.GimpScriptFacts | enhance_image.py:277-321 | The script starts by loading the input and ends by saving to the output and deleting the image. Down the middle, each of despeckle, levels-stretch and unsharp-mask appears once, in that order, only when enabled. The unsharp radius `min(5, 5s)` is at most 5 and the amount `min(1.5, 2s)` at most 1.5. |
| Enhance.StretchBandConstant | enhance_image.py:211-212 | A channel whose minimum equals its maximum is left as it is. |
| Enhance.StretchBandAt | enhance_image.py:213-227 | Sample i of a non-constant channel becomes `x * scale + offset`, with scale `255/(max-min)` and offset `-min*scale`. |
| Enhance.StretchBandRange | enhance_image.py:213-227 | In exact arithmetic, every stretched sample lies in [0, 255], the minimum maps to 0 and the maximum to 255. |
| Enhance.StretchBandMonotone | enhance_image.py:213-227 | The stretch keeps samples in order. |
| Enhance.AutoLevelsImage | enhance_image.py:201-230 | Modes other than L, RGB and RGBA are returned unchanged. L stretches its channel; RGB and RGBA stretch their first three channels. The mode and channel count are kept, and the alpha channel is untouched. |
| Enhance.Success | enhance_image.py:323-330 | Status "ok", code "success", with the output path. |
| Enhance.Error | enhance_image.py:332-339 | Status "error" with the given code and message and no output path. |
| Enhance.FirstPassing | enhance_image.py:73-83 | Gives the first candidate whose probe exits 0, with all earlier ones failing. Gives nothing exactly when none exits 0. |
| Enhance.FindGimp | enhance_image.py:64-83 | Probes the four candidates in order and returns the first that exits 0. Timeouts and missing files count as failure. |
| Enhance.GimpResult | enhance_image.py:263-275 | "ok" exactly when GIMP exited 0 and produced the output. Otherwise `gimp_failed`, `gimp_no_output`, `gimp_timeout` or `gimp_error`. |
| Enhance.ImageEnhancer.constructor | enhance_image.py:49-62 | An empty or absent path is looked up with `_find_gimp`. GIMP is used exactly when requested and a path was found. |
| Enhance.ImageEnhancer.Enhance | enhance_image.py:85-153 | The method computes exactly the outcome of `enhance`: result, written artifact and stray temporary file. |
| Enhance.MissingInputFirst | enhance_image.py:99-105 | A missing input reports `input_not_found`, whatever the preset or operations. |
| Enhance.InvalidPresetIff | enhance_image.py:103-106 | With the input present, `invalid_preset` is reported exactly when no operations are given and the preset is not light, medium or aggressive. Custom operations skip the lookup. |
| Enhance.GimpFallback | enhance_image.py:125-150 | Once the image opens, `enhance` succeeds and writes the in-process plan's result. It writes GIMP's output exactly when GIMP is on and succeeds. It leaves the temporary file exactly when GIMP is on and fails. |
| Enhance.StatusMatchesOutput | enhance_image.py:85-153 | The status is "ok" or "error". It is "ok" exactly when an output path is reported and exactly when something was written. |
| Preprocess.FramePreprocessor.constructor | preprocess_frames.py:17-25 | Wraps a fresh enhancer built with the same GIMP arguments. |
| Preprocess.PartitionCount | preprocess_frames.py:67-91 | Enhanced count plus failed count equals the number of frames. |
| Preprocess.EnhancedHas | preprocess_frames.py:70-85 | Every frame whose result is "ok" appears in `enhanced_frames` as `join(output_directory, basename(frame))`. |
| Preprocess.EnhancedOnly | preprocess_frames.py:70-85 | Every `enhanced_frames` entry is the output path of an "ok" frame. |
| Preprocess.EnhancedIff | preprocess_frames.py:70-85 | A path is in `enhanced_frames` exactly when it is the output path of an "ok" frame. |
| Preprocess.FailedHas | preprocess_frames.py:83-91 | Every frame whose result is not "ok" appears in `failed_frames` with its name and message. |
| Preprocess.FailedOnly | preprocess_frames.py:83-91 | Every `failed_frames` entry belongs to a frame whose result is not "ok". |
| Preprocess.FailedIff | preprocess_frames.py:83-91 | A failure record is present exactly when it names a failed frame and its message. |
| Preprocess.PreprocessFacts | preprocess_frames.py:42-111 | A missing directory gives `directory_not_found` and creates nothing. Otherwise the output directory is created (the given one, else `frame_directory + '_enhanced'`). No match gives `no_frames`. Otherwise the counts add up to `total_frames`, and the status is "ok" exactly when one frame was enhanced, else "error" with `all_failed`. |
| Preprocess.FramesSorted | preprocess_frames.py:54 | Frames are processed in ascending name order and are a permutation of the matches. |
| Preprocess.FramePreprocessor.PreprocessFrames | preprocess_frames.py:27-114 | The method computes exactly the outcome of `preprocess_frames`. |
| Preprocess.FramePreprocessor.EnhanceEach | preprocess_frames.py:67-91 | The loop yields exactly the enhanced list and the failed list, in frame order. |
| Preprocess.TallyStepInv | preprocess_frames.py:141-148 | Tallying one frame keeps the first-seen order a duplicate-free list of the map's keys, with non-empty groups. |
| Preprocess.TallyRunInv | preprocess_frames.py:138-164 | The first loop's tally keeps that invariant. |
| Preprocess.TallyStepCount | preprocess_frames.py:141-164 | One frame adds one to the tallied total exactly when it opens. |
| Preprocess.TallyRunCounts | preprocess_frames.py:138-164 | The groups hold exactly the readable frames; unreadable ones are left out. |
| Preprocess.TallyRunCorrupt | preprocess_frames.py:159-164 | Each unreadable frame gets `corrupt_or_unreadable` with its error. |
| Preprocess.TallyRunWrong | preprocess_frames.py:150-157 | Each readable frame of a size other than the expected one gets `wrong_resolution`. |
| Preprocess.TallyRunIssuesSound | preprocess_frames.py:138-164 | Every first-loop issue is one of those two, for some frame. |
| Preprocess.MostCommon | preprocess_frames.py:175 | The common resolution has the most frames and is the first such in first-seen order. |
| Preprocess.GroupIssues | preprocess_frames.py:170-176 | One issue per frame of the group. |
| Preprocess.MinorityIssuesIff | preprocess_frames.py:167-176 | A frame gets `inconsistent_resolution` exactly when its group holds fewer than half of all frames, and the issue names the common resolution. No other issue comes from this loop. |
| Preprocess.ValidationFacts | preprocess_frames.py:116-185 | No frames gives `no_frames`. Otherwise `total_frames` counts every file, and the status is "ok" exactly when there are no issues, else "warning"/`issues_found`. Every unreadable frame appears among the result's issues as `corrupt_or_unreadable`, and every readable frame of a size other than the expected one as `wrong_resolution`. `inconsistent_resolution` arises exactly for the frames of a minority group when two or more resolutions were seen. Every other issue is one of the first two kinds, for some frame. |
| Preprocess.VerdictMinority | preprocess_frames.py:166-184 | The final `inconsistent_resolution` issues are exactly the minority-rule ones: two or more resolutions, a group of fewer than half of all frames, naming the common resolution. |
| Preprocess.VerdictFrameIssues | preprocess_frames.py:138-184 | The final issue list keeps every first-loop issue of each frame, and its issues other than `inconsistent_resolution` all come from some frame. |
| Preprocess.FramePreprocessor.ValidateFrames | preprocess_frames.py:116-188 | The method computes exactly the result of `validate_frames`. |
| Preprocess.FramePreprocessor.CheckConsistency | preprocess_frames.py:166-176 | The minority check runs only with two or more resolutions. |
| Preprocess.FramePreprocessor.TallyFrames | preprocess_frames.py:138-164 | The first loop computes exactly the tally: first-seen order, frame names per size, and per-frame issues. |
| Preprocess.FramePreprocessor.FlagMinorities | preprocess_frames.py:167-176 | The nested second loop flags exactly the minority frames, resolution by resolution. |
| Preprocess.ExpectedFrom | preprocess_frames.py:250-256 | No expectation exactly when the argument is absent or empty. Exit 1 (`InvalidFormat`) exactly when a given argument does not parse; otherwise the parsed resolution. |
| Preprocess.ParseResolutionRoundTrip | preprocess_frames.py:251-253 | The string "WxH" for non-negative W and H is accepted as (W, H). |
| Preprocess.ParseResolutionAccepts | preprocess_frames.py:252-253 | Any two `x`-free parts that `int` reads, joined by `x`, are accepted as (first, second): signs, surrounding whitespace, leading zeros and underscores included. |
| Preprocess.ParseResolutionFirstRejected | preprocess_frames.py:252-256 | If `int` rejects the first of two `x`-free parts, the argument is rejected. |
| Preprocess.ExpectedSpacePadded | preprocess_frames.py:251-253 | `" WxH"` is accepted as (W, H), since `int` strips the space. |
| Preprocess.ExpectedSeparatorPadded | preprocess_frames.py:251-256 | An argument starting with U+001C, such as `"\x1c640x480"`, exits 1, since `int` does not strip that character. |
| Preprocess.ParseResolutionShape | preprocess_frames.py:252-253 | An accepted argument is two `x`-free parts around a single `x`, each read by `int` as the width and height. |
| Preprocess.ParseResolutionNeedsX | preprocess_frames.py:252 | An argument without `x` is rejected. |
| Batch.BatchOutputDir | batch_generate.py:52-56 | The first command-line argument when given, else `storyboards`. |
| Batch.PanelFileNameShape | batch_generate.py:29 | Panel names are `panel_`, at least three digits (exactly three below 1000), then `.png`, with no slash. |
| Batch.PanelPathInjective | batch_generate.py:28-29 | Different panel numbers give different paths. |
| Batch.DrawPanel | batch_generate.py:29-36 | One iteration: the panel path, and the sketch unless `generate_image` raises. |
| Batch.GenerateBatchStoryboards | batch_generate.py:14-38 | The directory is created first. Every prompt is attempted in order, numbered from 1, whatever the earlier attempts did. The reported count is the number of prompts. |
| Batch.AttemptFacts | batch_generate.py:28-36 | Attempt i has number i+1 and path `panel_{i+1:03d}.png`. It is saved exactly when its own call does not raise, whatever the other panels did. |
| Batch.ReportedAtLeastSaved | batch_generate.py:38 | The reported count is at least the saved count, and equals it exactly when no panel failed. |
| Decimal.ZeroPadValue | generate_animation.py:49 | A zero-padded numeral still denotes its number. |
| Decimal.ZeroPadInjective | batch_generate.py:29 | Different numbers pad differently. |
| Decimal.ParseIntNatToString | preprocess_frames.py:253-256 | `int(str(n)) == n`. |
| Decimal.ParseIntNegative | preprocess_frames.py:253-256 | `int("-" + str(n)) == -n`. |
| Decimal.ParseIntNeedsDigit | preprocess_frames.py:253-256 | Text without a digit is rejected by `int`. |
| Decimal.ParseIntLeadingSpace | preprocess_frames.py:253-256 | A leading whitespace character that `int` strips does not change what it reads. |
| Decimal.ParseIntLeadingJunk | preprocess_frames.py:253-256 | A leading character that is not `int` whitespace, a sign or a digit makes `int` raise. |
| Decimal.ParseIntSeparatorNotStripped | preprocess_frames.py:253-256 | `int` strips a space but not U+001C, although `str.strip()` removes both. |
| Text.SplitJoinWords | MCP/gimp-image-gen/gimp_image_gen.py:56 | `' '.join` of words followed by `split()` gives the words back. |
| Text.JoinSplitOn | preprocess_frames.py:252 | Splitting on `x` and joining on `x` gives the argument back. |
| Paths.DirnameEmptyIff | MCP/gimp-image-gen/gimp_image_gen.py:17-18 | `dirname(p)` is empty exactly when p has no slash. |
| Paths.BasenameJoin | preprocess_frames.py:71-72 | `basename(join(dir, name)) == name` for a name without slash. |
| Paths.DirnameJoin | generate_animation.py:50 | `dirname(join(dir, name)) == dir` for a plain directory and name. |
| Ordering.Sort | preprocess_frames.py:54 | `sorted`: a permutation in ascending code-point order. |

## Left out

- Pixel work is not modelled: median filter, `ImageEnhance` factors, LANCZOS resize (`_resize_frame`), the border, title, ellipse, guides and note of the sketch, fonts, and PNG/GIF encoding. Steps are recorded symbolically (`PilStep`, `ScriptCmd`, `TextDraw`).
- Text width is a parameter, because `textbbox` depends on a font.
- `_auto_levels` rounding and clamping inside `img.point` is left out. Channels are exact reals, so the 0/255 endpoint map holds exactly.
- Floating-point numbers are exact reals. The frame duration is exact integer division truncated toward zero.
- HTTP bodies, headers, timeouts and errors are only the reply outcome per request. `urllib.parse.quote` is a parameter.
- A failure while writing the reply body in the AI path is not modelled: the code catches it and tries the next endpoint.
- The GIMP subprocess, the temporary `.scm` file and the literal Script-Fu text are left out. The script is a list of commands, and the run is a `GimpRun` value.
- File-system effects are left out: makedirs, exists, getsize, glob, save and remove. `glob` results are a parameter list. The directories that would be created are recorded as values.
- Exceptions from makedirs, save or getsize are not modelled. In `enhance` they lead to `enhancement_failed`, and in the preprocessor to `preprocessing_failed` and `validation_failed`. Only failure to open the image is modelled.
- Enhance.FindGimp: only the two caught exceptions (`TimeoutExpired`, `FileNotFoundError`) and exit codes are modelled. Any other exception would escape the constructor.
- `print` output is left out: progress lines, warnings, and the `use_gimp` notice of `generate_image`, which only prints.
- The `main` command lines of `enhance_image.py`, `preprocess_frames.py` and `gimp_image_gen.py` are left out, apart from two things. One is the `--expected-resolution` parse, whose failure is `InvalidFormat` (exit 1). The other is the `main` of `generate_animation.py` after argument parsing.
- Decimal.ParseInt: `int()` is modelled for ASCII digits, signs and underscores, and for the whitespace it strips (tab, line feed, vertical tab, form feed, carriage return and space among ASCII characters, plus non-ASCII whitespace). Non-ASCII Unicode digits, which `int` also accepts, are not.
- Preprocess.ValidationFacts: the `resolutions` dictionary, keyed by `str((w, h))`, is modelled as a list of (resolution, count) pairs in first-seen order. The textual key is not produced.
- ImageGen.TooWideWordAlone holds only for a text measure in which a line measures at least each of its words. The code does not promise more.
- Animation.AnimationGenerator.constructor requires a non-zero rate, because `int(1000 / 0)` raises. `RunMain` models that case as exit status 1.
- Whether a frame's generation succeeds (AI or sketch, then the resize) is the single parameter `generated(prompt, path)`. The `weight` variable of the interpolation loop is unused in the code and is left out.
- Batch: whether `generate_image` raises for a panel is keyed by the panel's output path.
- `demo_pipeline.py` is not part of this model. It is an interactive demo chaining network calls.
- The `PRESETS` dictionary is a constant here, so `enhance`'s `.copy()` trivially leaves it unchanged.
