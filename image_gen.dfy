/**
 * The single-image generator (MCP/gimp-image-gen/gimp_image_gen.py): the local
 * storyboard sketch, with its greedy word wrap and line layout, and the AI path, which
 * tries two hosted endpoints in a fixed order and falls back to the sketch.
 *
 * Text measurement is a parameter `measure` (the width of `textbbox` for the text font),
 * the network is a parameter `reply` from request to reply, and `urllib.parse.quote`
 * is a parameter `quote`.
 */
module ImageGen {
  import opened Wrappers
  import Text
  import Paths

  const CanvasWidth: int := 1920
  const CanvasHeight: int := 1080
  const Margin: int := 100
  /** `width - 2 * margin` */
  const MaxLineWidth: int := CanvasWidth - 2 * Margin
  const FirstLineY: int := 150
  const LineSpacing: int := 50

  datatype ColorMode = RGB
  datatype Canvas = Canvas(width: int, height: int, mode: ColorMode, background: string)
  /** One `draw.text((x, y), text)` call. */
  datatype TextDraw = TextDraw(x: int, y: int, text: string)
  /** What the sketch path writes: the canvas, the prompt lines drawn on it, and the file. */
  datatype Sketch = Sketch(canvas: Canvas, text: seq<TextDraw>, savedTo: string)

  // ---------------------------------------------------------------------
  // Greedy word wrap

  /** The wrap loop's state: finished lines as word lists, and the line being filled. */
  datatype WrapState = WrapState(done: seq<seq<string>>, current: seq<string>)

  /** One iteration of the loop over words: extend the current line if it still fits, else start a new one. */
  function WrapStep(st: WrapState, word: string, measure: string -> int, maxWidth: int): WrapState
  {
    if measure(Text.JoinWords(st.current + [word])) <= maxWidth then
      WrapState(st.done, st.current + [word])
    else
      WrapState(if st.current != [] then st.done + [st.current] else st.done, [word])
  }

  /** The loop's state after the given words. */
  function WrapRun(words: seq<string>, measure: string -> int, maxWidth: int): WrapState
  {
    if words == [] then WrapState([], [])
    else WrapStep(WrapRun(words[..|words| - 1], measure, maxWidth), words[|words| - 1], measure, maxWidth)
  }

  /** The lines as word lists, once the last current line is flushed. */
  function WrapGroups(words: seq<string>, measure: string -> int, maxWidth: int): seq<seq<string>>
  {
    var st := WrapRun(words, measure, maxWidth);
    if st.current != [] then st.done + [st.current] else st.done
  }

  function Flatten(groups: seq<seq<string>>): seq<string>
  {
    if groups == [] then [] else Flatten(groups[..|groups| - 1]) + groups[|groups| - 1]
  }

  /** `[' '.join(g) for g in groups]` */
  function JoinAll(groups: seq<seq<string>>): (lines: seq<string>)
    ensures |lines| == |groups|
  {
    if groups == [] then [] else JoinAll(groups[..|groups| - 1]) + [Text.JoinWords(groups[|groups| - 1])]
  }

  /** The lines the sketch draws for a prompt. */
  function WrapLines(prompt: string, measure: string -> int): seq<string>
  {
    JoinAll(WrapGroups(Text.SplitWords(prompt), measure, MaxLineWidth))
  }

  /** A line of two or more words measures at most `maxWidth`. */
  ghost predicate Fits(g: seq<string>, measure: string -> int, maxWidth: int)
  {
    |g| >= 2 ==> measure(Text.JoinWords(g)) <= maxWidth
  }

  /** Line `g` followed by the first word of line `next` would be too wide. */
  ghost predicate Overflows(g: seq<string>, next: seq<string>, measure: string -> int, maxWidth: int)
  {
    next != [] && measure(Text.JoinWords(g + [next[0]])) > maxWidth
  }

  /** The properties the wrap promises of its lines, as word lists. */
  ghost predicate WellWrapped(groups: seq<seq<string>>, measure: string -> int, maxWidth: int)
  {
    && (forall k :: 0 <= k < |groups| ==> groups[k] != [])
    && (forall k :: 0 <= k < |groups| ==> Fits(groups[k], measure, maxWidth))
    && (forall k :: 1 <= k < |groups| ==> Overflows(groups[k - 1], groups[k], measure, maxWidth))
  }

  /** What holds of the wrap loop's state after any prefix of the words. */
  ghost predicate WrapInvariant(st: WrapState, words: seq<string>, measure: string -> int, maxWidth: int)
  {
    && Flatten(st.done) + st.current == words
    && WellWrapped(st.done, measure, maxWidth)
    && Fits(st.current, measure, maxWidth)
    && (st.done != [] ==> Overflows(st.done[|st.done| - 1], st.current, measure, maxWidth))
  }

  lemma FlattenSnoc(groups: seq<seq<string>>, g: seq<string>)
    ensures Flatten(groups + [g]) == Flatten(groups) + g
  {
    assert (groups + [g])[..|groups|] == groups;
  }

  lemma JoinAllSnoc(groups: seq<seq<string>>, g: seq<string>)
    ensures JoinAll(groups + [g]) == JoinAll(groups) + [Text.JoinWords(g)]
  {
    assert (groups + [g])[..|groups|] == groups;
  }

  /** Appending a non-empty fitting line that the previous last line overflows into keeps a wrap well formed. */
  lemma WellWrappedSnoc(groups: seq<seq<string>>, g: seq<string>, measure: string -> int, maxWidth: int)
    requires WellWrapped(groups, measure, maxWidth)
    requires g != [] && Fits(g, measure, maxWidth)
    requires groups != [] ==> Overflows(groups[|groups| - 1], g, measure, maxWidth)
    ensures WellWrapped(groups + [g], measure, maxWidth)
  {
    var gs := groups + [g];
    forall k | 1 <= k < |gs| ensures Overflows(gs[k - 1], gs[k], measure, maxWidth) {
      if k < |groups| {
        assert gs[k - 1] == groups[k - 1] && gs[k] == groups[k];
      }
    }
  }

  /** One iteration of the loop keeps the invariant. */
  lemma WrapStepInvariant(st: WrapState, words: seq<string>, w: string, measure: string -> int, maxWidth: int)
    requires WrapInvariant(st, words, measure, maxWidth)
    ensures WrapInvariant(WrapStep(st, w, measure, maxWidth), words + [w], measure, maxWidth)
  {
    var st' := WrapStep(st, w, measure, maxWidth);
    if measure(Text.JoinWords(st.current + [w])) <= maxWidth {
      assert st'.done == st.done && st'.current == st.current + [w];
      assert Flatten(st'.done) + st'.current == words + [w];
      if st.done != [] {
        assert st'.current[0] == st.current[0];
      }
    } else if st.current != [] {
      assert st'.done == st.done + [st.current] && st'.current == [w];
      FlattenSnoc(st.done, st.current);
      WellWrappedSnoc(st.done, st.current, measure, maxWidth);
      assert Overflows(st.current, [w], measure, maxWidth);
    } else {
      assert st.done == [];
      assert st'.done == [] && st'.current == [w];
    }
  }

  /** The invariant holds after every prefix of the words. */
  lemma {:induction false} WrapRunInvariant(words: seq<string>, measure: string -> int, maxWidth: int)
    ensures WrapInvariant(WrapRun(words, measure, maxWidth), words, measure, maxWidth)
  {
    if words != [] {
      var init, w := words[..|words| - 1], words[|words| - 1];
      WrapRunInvariant(init, measure, maxWidth);
      assert init + [w] == words;
      WrapStepInvariant(WrapRun(init, measure, maxWidth), init, w, measure, maxWidth);
    }
  }

  /**
   * The wrapped lines, as word lists: together they are the words in order, none is
   * empty, every line of two or more words fits, and the wrap is greedy: each line
   * joined with the next line's first word would not fit.
   */
  lemma WrapGroupsProperties(words: seq<string>, measure: string -> int, maxWidth: int)
    ensures Flatten(WrapGroups(words, measure, maxWidth)) == words
    ensures WellWrapped(WrapGroups(words, measure, maxWidth), measure, maxWidth)
  {
    WrapRunInvariant(words, measure, maxWidth);
    var st := WrapRun(words, measure, maxWidth);
    if st.current != [] {
      FlattenSnoc(st.done, st.current);
      WellWrappedSnoc(st.done, st.current, measure, maxWidth);
    } else {
      assert st.done == [];
    }
  }

  /** Joining a line with one more word puts a single space between them. */
  lemma {:induction false} JoinWordsSnoc(words: seq<string>, w: string)
    requires words != []
    ensures Text.JoinWords(words + [w]) == Text.JoinWords(words) + " " + w
  {
    if |words| > 1 {
      JoinWordsSnoc(words[1..], w);
      assert (words + [w])[1..] == words[1..] + [w];
    }
  }

  /** Splitting each joined group back into words and concatenating gives the groups' words. */
  lemma {:induction false} SplitJoinAll(groups: seq<seq<string>>)
    requires AllWords(groups)
    ensures Flatten(SplitEach(JoinAll(groups))) == Flatten(groups)
  {
    if groups != [] {
      var init, g := groups[..|groups| - 1], groups[|groups| - 1];
      SplitJoinAll(init);
      assert groups == init + [g];
      JoinAllSnoc(init, g);
      Text.SplitJoinWords(g);
      SplitEachSnoc(JoinAll(init), Text.JoinWords(g));
      FlattenSnoc(SplitEach(JoinAll(init)), g);
      FlattenSnoc(init, g);
    }
  }

  /** `[line.split() for line in lines]` */
  function SplitEach(lines: seq<string>): (r: seq<seq<string>>)
    ensures |r| == |lines| && forall k :: 0 <= k < |lines| ==> r[k] == Text.SplitWords(lines[k])
  {
    if lines == [] then [] else SplitEach(lines[..|lines| - 1]) + [Text.SplitWords(lines[|lines| - 1])]
  }

  lemma SplitEachSnoc(lines: seq<string>, line: string)
    ensures SplitEach(lines + [line]) == SplitEach(lines) + [Text.SplitWords(line)]
  {
    assert (lines + [line])[..|lines|] == lines;
  }

  /** Every entry of every group is a word of `str.split()`. */
  ghost predicate AllWords(groups: seq<seq<string>>)
  {
    forall k, i :: 0 <= k < |groups| && 0 <= i < |groups[k]| ==> Text.IsWord(groups[k][i])
  }

  lemma WrapGroupsAreWords(prompt: string, measure: string -> int)
    ensures AllWords(WrapGroups(Text.SplitWords(prompt), measure, MaxLineWidth))
  {
    var words := Text.SplitWords(prompt);
    var groups := WrapGroups(words, measure, MaxLineWidth);
    WrapGroupsProperties(words, measure, MaxLineWidth);
    forall k, i | 0 <= k < |groups| && 0 <= i < |groups[k]| ensures Text.IsWord(groups[k][i]) {
      FlattenIndex(groups, k, i);
    }
  }

  /** Where an element of one group sits in the flattened list. */
  lemma {:induction false} FlattenIndex(groups: seq<seq<string>>, k: nat, i: nat)
    requires k < |groups| && i < |groups[k]|
    ensures exists j :: 0 <= j < |Flatten(groups)| && Flatten(groups)[j] == groups[k][i]
  {
    var init := groups[..|groups| - 1];
    assert groups == init + [groups[|groups| - 1]];
    if k == |groups| - 1 {
      var j := |Flatten(init)| + i;
      assert Flatten(groups)[j] == groups[k][i];
    } else {
      FlattenIndex(init, k, i);
      var j :| 0 <= j < |Flatten(init)| && Flatten(init)[j] == init[k][i];
      assert Flatten(groups)[j] == groups[k][i];
    }
  }

  /** The lines' words, in line order, are exactly `prompt.split()`. */
  lemma WrapPreservesWords(prompt: string, measure: string -> int)
    ensures Flatten(SplitEach(WrapLines(prompt, measure))) == Text.SplitWords(prompt)
  {
    var words := Text.SplitWords(prompt);
    WrapGroupsProperties(words, measure, MaxLineWidth);
    WrapGroupsAreWords(prompt, measure);
    SplitJoinAll(WrapGroups(words, measure, MaxLineWidth));
  }

  lemma JoinAllAt(groups: seq<seq<string>>, k: nat)
    requires k < |groups|
    ensures JoinAll(groups)[k] == Text.JoinWords(groups[k])
  {
    if k < |groups| - 1 {
      JoinAllAt(groups[..|groups| - 1], k);
    }
  }

  /** Line k is its group joined, splits back into that group, and the group is a non-empty fitting line of words. */
  lemma WrapGroupAt(prompt: string, measure: string -> int, k: nat)
    requires k < |WrapLines(prompt, measure)|
    ensures var groups := WrapGroups(Text.SplitWords(prompt), measure, MaxLineWidth);
      && k < |groups| && groups[k] != [] && Fits(groups[k], measure, MaxLineWidth)
      && WrapLines(prompt, measure)[k] == Text.JoinWords(groups[k])
      && Text.SplitWords(WrapLines(prompt, measure)[k]) == groups[k]
  {
    var groups := WrapGroups(Text.SplitWords(prompt), measure, MaxLineWidth);
    assert groups[k] != [] && Fits(groups[k], measure, MaxLineWidth) by {
      WrapGroupsProperties(Text.SplitWords(prompt), measure, MaxLineWidth);
    }
    assert forall i :: 0 <= i < |groups[k]| ==> Text.IsWord(groups[k][i]) by {
      WrapGroupsAreWords(prompt, measure);
    }
    JoinAllAt(groups, k);
    Text.SplitJoinWords(groups[k]);
  }

  /** Line k followed by the first word of line k + 1 is too wide. */
  lemma WrapGroupsOverflow(prompt: string, measure: string -> int, k: nat)
    requires k + 1 < |WrapGroups(Text.SplitWords(prompt), measure, MaxLineWidth)|
    ensures var groups := WrapGroups(Text.SplitWords(prompt), measure, MaxLineWidth);
      Overflows(groups[k], groups[k + 1], measure, MaxLineWidth)
  {
    WrapGroupsProperties(Text.SplitWords(prompt), measure, MaxLineWidth);
  }

  /**
   * Each line is non-empty, holds the words of its group, and measures at most
   * `MaxLineWidth` unless it is a single word; the line after it starts with a word that
   * would have made it too wide.
   */
  lemma WrapLineFacts(prompt: string, measure: string -> int, k: nat)
    requires k < |WrapLines(prompt, measure)|
    ensures var lines := WrapLines(prompt, measure);
      && lines[k] != []
      && (measure(lines[k]) <= MaxLineWidth || |Text.SplitWords(lines[k])| == 1)
      && (k + 1 < |lines| ==>
            Text.SplitWords(lines[k + 1]) != []
            && measure(lines[k] + " " + Text.SplitWords(lines[k + 1])[0]) > MaxLineWidth)
  {
    var groups := WrapGroups(Text.SplitWords(prompt), measure, MaxLineWidth);
    var lines := WrapLines(prompt, measure);
    WrapGroupAt(prompt, measure, k);
    if k + 1 < |lines| {
      WrapGroupAt(prompt, measure, k + 1);
      WrapGroupsOverflow(prompt, measure, k);
      JoinWordsSnoc(groups[k], groups[k + 1][0]);
    }
  }

  /** Text measurement in which a line is at least as wide as each of its words. */
  ghost predicate WidensWithWords(measure: string -> int)
  {
    forall ws: seq<string>, i {:trigger measure(Text.JoinWords(ws)), measure(ws[i])} ::
      0 <= i < |ws| ==> measure(Text.JoinWords(ws)) >= measure(ws[i])
  }

  /** Under such a measurement, a word too wide for a line ends up alone on its line. */
  lemma TooWideWordAlone(prompt: string, measure: string -> int, k: nat, i: nat)
    requires WidensWithWords(measure)
    requires k < |WrapLines(prompt, measure)| && i < |Text.SplitWords(WrapLines(prompt, measure)[k])|
    requires measure(Text.SplitWords(WrapLines(prompt, measure)[k])[i]) > MaxLineWidth
    ensures Text.SplitWords(WrapLines(prompt, measure)[k]) == [Text.SplitWords(WrapLines(prompt, measure)[k])[i]]
  {
    var g := WrapGroups(Text.SplitWords(prompt), measure, MaxLineWidth)[k];
    WrapGroupAt(prompt, measure, k);
    assert Text.SplitWords(WrapLines(prompt, measure)[k]) == g;
    if |g| >= 2 {
      assert false;
    }
  }

  /** The wrap loop of `generate_image`, run on `prompt.split()`. */
  method WrapPrompt(prompt: string, measure: string -> int) returns (lines: seq<string>)
    ensures lines == WrapLines(prompt, measure)
  {
    var words := Text.SplitWords(prompt);
    lines := [];
    var current: seq<string> := [];
    for i := 0 to |words|
      invariant lines == JoinAll(WrapRun(words[..i], measure, MaxLineWidth).done)
      invariant current == WrapRun(words[..i], measure, MaxLineWidth).current
    {
      assert words[..i + 1][..i] == words[..i];
      var word := words[i];
      var testLine := Text.JoinWords(current + [word]);
      if measure(testLine) <= MaxLineWidth {
        current := current + [word];
      } else {
        if current != [] {
          JoinAllSnoc(WrapRun(words[..i], measure, MaxLineWidth).done, current);
          lines := lines + [Text.JoinWords(current)];
        }
        current := [word];
      }
    }
    assert words[..|words|] == words;
    if current != [] {
      JoinAllSnoc(WrapRun(words, measure, MaxLineWidth).done, current);
      lines := lines + [Text.JoinWords(current)];
    }
  }

  // ---------------------------------------------------------------------
  // Layout and the sketch

  /** Where the lines are drawn: line k at (100, 150 + 50 k). */
  function LayOutLines(lines: seq<string>): seq<TextDraw>
  {
    seq(|lines|, k requires 0 <= k < |lines| => TextDraw(Margin, FirstLineY + LineSpacing * k, lines[k]))
  }

  /** The drawing loop, moving `y_offset` down by one line spacing per line. */
  method LayOut(lines: seq<string>) returns (draws: seq<TextDraw>)
    ensures |draws| == |lines|
    ensures forall k :: 0 <= k < |lines| ==> draws[k] == TextDraw(Margin, FirstLineY + LineSpacing * k, lines[k])
  {
    draws := [];
    var yOffset := FirstLineY;
    for i := 0 to |lines|
      invariant |draws| == i
      invariant yOffset == FirstLineY + LineSpacing * i
      invariant forall k :: 0 <= k < i ==> draws[k] == TextDraw(Margin, FirstLineY + LineSpacing * k, lines[k])
    {
      draws := draws + [TextDraw(Margin, yOffset, lines[i])];
      yOffset := yOffset + LineSpacing;
    }
  }

  /** The directory `generate_image` and `generate_image_with_ai` create, if any. */
  function DirToCreate(outputFile: string): (d: Option<string>)
    ensures d.None? <==> '/' !in outputFile
  {
    Paths.DirnameEmptyIff(outputFile);
    var dir := Paths.Dirname(outputFile);
    if dir != [] then Some(dir) else None
  }

  /** The sketch `generate_image` writes for a prompt. */
  function SketchOf(prompt: string, outputFile: string, measure: string -> int): Sketch
  {
    Sketch(Canvas(CanvasWidth, CanvasHeight, RGB, "white"), LayOutLines(WrapLines(prompt, measure)), outputFile)
  }

  /**
   * `generate_image(prompt, output_file)`: creates the parent directory only when the
   * path names one, and draws the wrapped prompt on a fixed 1920x1080 RGB canvas,
   * whatever the prompt.
   */
  method GenerateImage(prompt: string, outputFile: string, measure: string -> int)
    returns (madeDir: Option<string>, sketch: Sketch)
    ensures madeDir == DirToCreate(outputFile)
    ensures sketch.canvas == Canvas(1920, 1080, RGB, "white")
    ensures sketch.savedTo == outputFile
    ensures var lines := WrapLines(prompt, measure);
      && |sketch.text| == |lines|
      && forall k :: 0 <= k < |lines| ==> sketch.text[k] == TextDraw(100, 150 + 50 * k, lines[k])
    ensures sketch == SketchOf(prompt, outputFile, measure)
  {
    var outputDir := Paths.Dirname(outputFile);
    madeDir := if outputDir != [] then Some(outputDir) else None;
    var canvas := Canvas(CanvasWidth, CanvasHeight, RGB, "white");
    var lines := WrapPrompt(prompt, measure);
    var draws := LayOut(lines);
    sketch := Sketch(canvas, draws, outputFile);
  }

  // ---------------------------------------------------------------------
  // The AI path

  datatype Endpoint = HuggingFace | Pollinations

  /** The endpoints, in the order they are tried. */
  const Endpoints: seq<Endpoint> := [HuggingFace, Pollinations]

  const HuggingFaceUrl: string := "https://api-inference.huggingface.co/models/stabilityai/stable-diffusion-2-1"
  /** The Pollinations URL template up to its `{}` placeholder, which ends it. */
  const PollinationsUrlPrefix: string := "https://image.pollinations.ai/prompt/"
  const RequestTimeout: int := 60

  /** An outbound request: a JSON POST of `{"inputs": prompt}`, or a GET. */
  datatype Request = Post(url: string, inputs: string, timeout: int) | Get(url: string, timeout: int)

  /** A reply with its status code and raw body, or an exception (timeout, connection error, ...). */
  datatype Reply = Response(status: int, body: seq<bv8>) | Raised

  predicate IsOk(r: Reply)
  {
    r.Response? && r.status == 200
  }

  function RequestFor(e: Endpoint, prompt: string, quote: string -> string): Request
  {
    match e
    case HuggingFace => Post(HuggingFaceUrl, prompt, RequestTimeout)
    case Pollinations => Get(PollinationsUrlPrefix + quote(prompt), RequestTimeout)
  }

  function Requests(prompt: string, quote: string -> string): (reqs: seq<Request>)
    ensures |reqs| == |Endpoints|
    ensures forall i :: 0 <= i < |Endpoints| ==> reqs[i] == RequestFor(Endpoints[i], prompt, quote)
  {
    [RequestFor(HuggingFace, prompt, quote), RequestFor(Pollinations, prompt, quote)]
  }

  function Replies(reqs: seq<Request>, reply: Request -> Reply): (rs: seq<Reply>)
    ensures |rs| == |reqs| && forall i :: 0 <= i < |reqs| ==> rs[i] == reply(reqs[i])
  {
    seq(|reqs|, i requires 0 <= i < |reqs| => reply(reqs[i]))
  }

  /** The index of the first reply with status 200, if any. */
  function FirstOk(replies: seq<Reply>): (r: Option<nat>)
    ensures r.Some? ==> r.value < |replies| && IsOk(replies[r.value])
    ensures r.Some? ==> forall j :: 0 <= j < r.value ==> !IsOk(replies[j])
    ensures r.None? <==> forall j :: 0 <= j < |replies| ==> !IsOk(replies[j])
  {
    if replies == [] then None
    else if IsOk(replies[0]) then Some(0)
    else match FirstOk(replies[1..])
      case Some(k) => Some(k + 1)
      case None => None
  }

  /** What `generate_image_with_ai` leaves at the output path. */
  datatype AiOutcome = SavedReply(endpoint: Endpoint, body: seq<bv8>) | FellBack(sketch: Sketch)

  /**
   * `generate_image_with_ai(prompt, output_file)`: the endpoints are requested in their
   * fixed order until one answers 200; that reply's body is written as it is. When none
   * does, every endpoint has been requested once and the sketch is drawn instead.
   */
  method GenerateWithAi(prompt: string, outputFile: string, reply: Request -> Reply,
                        quote: string -> string, measure: string -> int)
    returns (madeDir: Option<string>, sent: seq<Request>, outcome: AiOutcome)
    ensures madeDir == DirToCreate(outputFile)
    ensures var reqs := Requests(prompt, quote);
      match FirstOk(Replies(reqs, reply))
      case Some(k) =>
        && sent == reqs[..k + 1]
        && outcome == SavedReply(Endpoints[k], reply(reqs[k]).body)
      case None =>
        && sent == reqs
        && outcome == FellBack(SketchOf(prompt, outputFile, measure))
  {
    var outputDir := Paths.Dirname(outputFile);
    madeDir := if outputDir != [] then Some(outputDir) else None;
    ghost var reqs := Requests(prompt, quote);
    ghost var replies := Replies(reqs, reply);
    sent := [];
    var i := 0;
    while i < |Endpoints|
      invariant 0 <= i <= |Endpoints|
      invariant sent == reqs[..i]
      invariant forall j :: 0 <= j < i ==> !IsOk(replies[j])
    {
      var request := RequestFor(Endpoints[i], prompt, quote);
      sent := sent + [request];
      var response := reply(request);
      if response.Response? && response.status == 200 {
        outcome := SavedReply(Endpoints[i], response.body);
        assert IsOk(replies[i]);
        return;
      }
      i := i + 1;
    }
    var _, sketch := GenerateImage(prompt, outputFile, measure);
    outcome := FellBack(sketch);
  }
}
