/** Numbering figures and resolving references to them. */
module Figures {
  import opened Text
  import opened Substitution
  import opened MarkdownLines
  import opened Patterns
  import opened LineScanner
  import opened Links

  const BEGIN := "\\begin{figure}"
  const END := "\\end{figure}"

  datatype Figure = Figure(alt: string, src: string, caption: string, key: string)

  /** What the figure template is filled with. */
  datatype Rendered = Rendered(figure: Figure, number: nat, anchor: string)

  // ---------------------------------------------------------------- parsing

  function TrimAngles(s: string): string {
    if s == "" then s
    else if s[0] == '<' || s[0] == '>' then TrimAngles(s[1..])
    else if s[|s| - 1] == '<' || s[|s| - 1] == '>' then TrimAngles(s[..|s| - 1])
    else s
  }

  function ImageDestination(raw: string): string {
    var value := TrimSpace(raw);
    TrimAngles(match Find(value, 0, ' ') case None => value case Some(i) => value[..i])
  }

  function ParseFigureBody(body: string): (f: Option<Figure>)
    ensures f.Some? ==> f.value.src != ""
  {
    match FirstImage(body, 0)
    case None => None
    case Some(image) =>
      var alt, src := TrimSpace(image.alt), ImageDestination(image.target);
      var caption := TrimSpace(CAPTION.First(body, 0).GetOr(""));
      var key := TrimSpace(LABEL.First(body, 0).GetOr(""));
      if src == "" then None else Some(Figure(alt, src, if caption == "" then alt else caption, key))
  }

  function ParseStandaloneLine(trimmed: string): (f: Option<Figure>)
    ensures f.Some? ==> f.value.src != "" && f.value.key == ""
  {
    match ImageAt(trimmed, 0)
    case None => None
    case Some(image) =>
      var alt, src := TrimSpace(image.alt), ImageDestination(image.target);
      if image.end != |trimmed| || src == "" then None else Some(Figure(alt, src, alt, ""))
  }

  // ---------------------------------------------------------------- collecting

  /** What the collecting pass does with the next lines. */
  datatype Step =
    | Copied(line: string, class_: LineClass)
    | Verbatim(block: seq<string>)           // a closed figure block without a usable image
    | Numbered(figure: Figure, source: seq<string>)

  /** The step taken at line `i`, and the line after it. */
  function NextStep(lines: seq<string>, i: nat, s: Scan): (r: (Step, nat))
    requires i < |lines|
    ensures i < r.1 <= |lines|
  {
    var line := lines[i];
    var trimmed := TrimSpace(line);
    var copy := (Copied(line, Classify(s, line)), i + 1);
    if Classify(s, line) != TextLine then copy
    else if trimmed == BEGIN then
      match FindLine(lines, i + 1, END)
      case None => copy
      case Some(end) =>
        match ParseFigureBody(Join(lines[i + 1..end]))
        case None => (Verbatim(lines[i..end + 1]), end + 1)
        case Some(figure) => (Numbered(figure, lines[i..end + 1]), end + 1)
    else
      match ParseStandaloneLine(trimmed)
      case None => copy
      case Some(figure) => (Numbered(figure, [line]), i + 1)
  }

  /** The scanner of the collecting pass over one step; figure blocks are skipped unscanned. */
  function AfterStep(s: Scan, step: Step): Scan {
    if step.Copied? then Advance(s, step.line) else s
  }

  function Steps(lines: seq<string>, i: nat, s: Scan): seq<Step>
    requires i <= |lines|
    decreases |lines| - i
  {
    if i == |lines| then []
    else
      var (step, next) := NextStep(lines, i, s);
      [step] + Steps(lines, next, AfterStep(s, step))
  }

  function FigureToken(k: nat): string { "POSTIZER_FIGURE_" + Decimal(k) }

  lemma FigureTokenInjective(j: nat, k: nat)
    ensures FigureToken(j) == FigureToken(k) ==> j == k
  {
    assert FigureToken(j)[16..] == Decimal(j) && FigureToken(k)[16..] == Decimal(k);
    if Decimal(j) == Decimal(k) { DecimalInjective(j, k); }
  }

  /** The lines written and the figures numbered so far. */
  datatype Collected = Collected(out: seq<string>, figures: seq<Figure>) {
    function Separator(): seq<string> {
      if out != [] && TrimSpace(out[|out| - 1]) != "" then [""] else []
    }

    function Then(step: Step): Collected {
      match step
      case Copied(line, _) => Collected(out + [line], figures)
      case Verbatim(block) => Collected(out + block, figures)
      case Numbered(figure, _) =>
        Collected(out + Separator() + [FigureToken(|figures|), ""], figures + [figure])
    }
  }

  function Emit(c: Collected, steps: seq<Step>): Collected
    decreases |steps|
  {
    if steps == [] then c else Emit(c.Then(steps[0]), steps[1..])
  }

  const NONE_YET := Collected([], [])

  function Collect(lines: seq<string>): Collected {
    Emit(NONE_YET, Steps(lines, 0, REST))
  }

  // ---------------------------------------------------------------- references

  /** The references that exist once the given figures are numbered 1, 2, ... */
  function References(figures: seq<Figure>): map<string, Reference>
    decreases |figures|
  {
    if figures == [] then map[]
    else
      var last := |figures| - 1;
      var key, before := figures[last].key, References(figures[..last]);
      if key == "" || key in before then before
      else before[key := Reference(Decimal(last + 1), PrefixedAnchor("fig-", key))]
  }

  function LabelOf(figure: Figure): string { figure.key }

  /** A label resolves exactly when some figure carries it, and then to the first of them. */
  lemma {:induction false} ReferencesResolveFirst(figures: seq<Figure>, key: string)
    ensures key in References(figures) <==> key != "" && FirstWithLabel(figures, LabelOf, key).Some?
    ensures key in References(figures) ==>
              References(figures)[key]
              == Reference(Decimal(FirstWithLabel(figures, LabelOf, key).value + 1), PrefixedAnchor("fig-", key))
    decreases |figures|
  {
    hide Decimal, PrefixedAnchor;
    if figures != [] {
      ReferencesResolveFirst(figures[..|figures| - 1], key);
    }
  }

  /** The anchor of figure `k`: later figures with a label already taken get their own. */
  function Anchor(figures: seq<Figure>, k: nat): string
    requires k < |figures|
  {
    var key := figures[k].key;
    if key == "" then ""
    else if key !in References(figures[..k]) then PrefixedAnchor("fig-", key)
    else PrefixedAnchor("fig-", key) + "-" + Decimal(k + 1)
  }

  /** The map from token to figure that the substitution uses later. */
  function FigureMap(figures: seq<Figure>): map<string, Rendered>
    decreases |figures|
  {
    if figures == [] then map[]
    else
      var last := |figures| - 1;
      FigureMap(figures[..last])[FigureToken(last) := Rendered(figures[last], last + 1, Anchor(figures, last))]
  }

  ghost predicate Numbers(figures: seq<Figure>, table: map<string, Rendered>) {
    && |table| == |figures|
    && (forall k :: 0 <= k < |figures| ==>
          FigureToken(k) in table && table[FigureToken(k)] == Rendered(figures[k], k + 1, Anchor(figures, k)))
    && (forall t :: t in table ==> exists k :: 0 <= k < |figures| && t == FigureToken(k))
  }

  lemma NumbersMore(figures: seq<Figure>, table: map<string, Rendered>, figure: Figure)
    requires Numbers(figures, table)
    ensures var all, n := figures + [figure], |figures|;
            Numbers(all, table[FigureToken(n) := Rendered(figure, n + 1, Anchor(all, n))])
  {
    hide FigureToken, Anchor;
    var all, n := figures + [figure], |figures|;
    var token, last := FigureToken(n), Rendered(figure, n + 1, Anchor(all, n));
    var more := table[token := last];
    assert all[..n] == figures;
    forall k | 0 <= k < n ensures FigureToken(k) != token && Anchor(all, k) == Anchor(figures, k) {
      FigureTokenInjective(k, n);
      AnchorOfPrefix(all, n, k);
    }
    TableGrows(table, token, last) by { assert token !in table; }
    forall k | 0 <= k < |all|
      ensures FigureToken(k) in more && more[FigureToken(k)] == Rendered(all[k], k + 1, Anchor(all, k))
    {
      if k < n { assert all[k] == figures[k]; }
    }
  }

  lemma TableGrows(table: map<string, Rendered>, token: string, value: Rendered)
    requires token !in table
    ensures |table[token := value]| == |table| + 1
  {
    assert table[token := value].Keys == table.Keys + {token};
  }

  /** Figures are numbered from 1 in document order, and token `k` holds figure `k + 1`. */
  lemma {:induction false} FigureMapNumbers(figures: seq<Figure>)
    ensures Numbers(figures, FigureMap(figures))
    decreases |figures|
  {
    hide FigureToken, Anchor, Numbers;
    if figures == [] {
      NoNumbers();
    } else {
      var last := |figures| - 1;
      FigureMapNumbers(figures[..last]);
      NumbersMore(figures[..last], FigureMap(figures[..last]), figures[last]);
      assert figures[..last] + [figures[last]] == figures;
    }
  }

  lemma NoNumbers()
    ensures Numbers([], map[])
  {
  }

  lemma AnchorOfPrefix(figures: seq<Figure>, n: nat, k: nat)
    requires k < n <= |figures|
    ensures Anchor(figures[..n], k) == Anchor(figures, k)
  {
    assert figures[..n][..k] == figures[..k];
  }

  // ---------------------------------------------------------------- the two passes agree

  function StepSource(step: Step): seq<string> {
    match step
    case Copied(line, _) => [line]
    case Verbatim(block) => block
    case Numbered(_, source) => source
  }

  function SourceLines(steps: seq<Step>): seq<string> {
    if steps == [] then [] else StepSource(steps[0]) + SourceLines(steps[1..])
  }

  lemma SourceLinesCons(step: Step, rest: seq<Step>, lines: seq<string>, i: nat, j: nat)
    requires i <= j <= |lines| && StepSource(step) == lines[i..j] && SourceLines(rest) == lines[j..]
    ensures SourceLines([step] + rest) == lines[i..]
  {
    assert ([step] + rest)[1..] == rest;
    assert lines[i..] == lines[i..j] + lines[j..];
  }

  lemma NextStepTakes(lines: seq<string>, i: nat, s: Scan)
    requires i < |lines|
    ensures var (step, next) := NextStep(lines, i, s); StepSource(step) == lines[i..next] && TakenIn(step, s)
  {
    hide Classify, Advance, ParseFigureBody, ParseStandaloneLine, FindLine;
    TextOnlyAtRest(s, lines[i]);
  }

  /** The steps cut the source into consecutive pieces: no line is lost, repeated or moved. */
  lemma {:induction false} StepsCoverSource(lines: seq<string>, i: nat, s: Scan)
    requires i <= |lines|
    ensures SourceLines(Steps(lines, i, s)) == lines[i..]
    decreases |lines| - i
  {
    hide NextStep, AfterStep, StepSource;
    if i < |lines| {
      var (step, next) := NextStep(lines, i, s);
      NextStepTakes(lines, i, s);
      StepsCoverSource(lines, next, AfterStep(s, step));
      SourceLinesCons(step, Steps(lines, next, AfterStep(s, step)), lines, i, next);
    }
  }

  /** The step fits the state of the scanner: copied lines carry their class, figures start at rest. */
  predicate TakenIn(step: Step, s: Scan) {
    if step.Copied? then step.class_ == Classify(s, step.line) else s == REST
  }

  ghost predicate Faithful(steps: seq<Step>, s: Scan)
    decreases |steps|
  {
    steps != [] ==>
      && TakenIn(steps[0], s)
      && Faithful(steps[1..], AfterStep(s, steps[0]))
  }

  lemma {:induction false} StepsFaithful(lines: seq<string>, i: nat, s: Scan)
    requires i <= |lines|
    ensures Faithful(Steps(lines, i, s), s)
    decreases |lines| - i
  {
    hide NextStep, AfterStep, TakenIn;
    if i < |lines| {
      var (step, next) := NextStep(lines, i, s);
      NextStepTakes(lines, i, s);
      StepsFaithful(lines, next, AfterStep(s, step));
      assert Steps(lines, i, s)[1..] == Steps(lines, next, AfterStep(s, step));
    }
  }

  /** After each step the replacing pass, reading what was written so far, is in the collecting pass's state. */
  ghost predicate Aligned(c: Collected, s: Scan, steps: seq<Step>)
    decreases |steps|
  {
    && AdvanceAll(REST, c.out) == s
    && (steps != [] ==> Aligned(c.Then(steps[0]), AfterStep(s, steps[0]), steps[1..]))
  }

  ghost predicate BlocksNeutral(steps: seq<Step>) {
    forall k :: 0 <= k < |steps| && steps[k].Verbatim? ==> Neutral(steps[k].block)
  }

  /** What a numbered figure writes is plain text to the scanner. */
  lemma FigureLinesRest(c: Collected)
    ensures var written := c.Separator() + [FigureToken(|c.figures|), ""];
            AdvanceAll(REST, written) == REST && Classes(REST, written) == seq(|written|, _ => TextLine)
  {
    var token := FigureToken(|c.figures|);
    assert Trimmed(token) by { assert !IsSpace(token[|token| - 1]) by { assert IsDigit(token[|token| - 1]); } }
    assert Unremarkable(token) by { assert token[0] == 'P'; }
    assert Unremarkable("");
    RestsOn(c.Separator() + [token, ""]);
  }

  lemma ThenScans(c: Collected, s: Scan, step: Step)
    requires AdvanceAll(REST, c.out) == s
    requires TakenIn(step, s)
    ensures AdvanceAll(REST, c.Then(step).out) == AfterStep(s, step)
       <==> (step.Verbatim? ==> Neutral(step.block))
  {
    hide Advance, Classify, FigureToken;
    match step {
      case Copied(line, _) => ScanAppend(REST, c.out, [line]);
      case Verbatim(block) => ScanAppend(REST, c.out, block);
      case Numbered(figure, _) =>
        FigureLinesRest(c);
        ScanAppend(REST, c.out, c.Separator() + [FigureToken(|c.figures|), ""]);
        assert c.out + c.Separator() + [FigureToken(|c.figures|), ""]
            == c.out + (c.Separator() + [FigureToken(|c.figures|), ""]);
    }
  }

  /** The passes stay aligned exactly when every figure block that is copied unparsed is neutral. */
  lemma {:induction false} AlignedIffNeutral(c: Collected, s: Scan, steps: seq<Step>)
    requires AdvanceAll(REST, c.out) == s && Faithful(steps, s)
    ensures Aligned(c, s, steps) <==> BlocksNeutral(steps)
    decreases |steps|
  {
    hide Neutral, Classify, Advance, FigureToken;
    if steps != [] {
      ThenScans(c, s, steps[0]);
      if steps[0].Verbatim? ==> Neutral(steps[0].block) {
        AlignedIffNeutral(c.Then(steps[0]), AfterStep(s, steps[0]), steps[1..]);
        assert steps == [steps[0]] + steps[1..];
      }
    }
  }

  /** For every source: collecting and replacing classify alike throughout iff the unparsed blocks are neutral. */
  lemma PassesAlign(lines: seq<string>)
    ensures Aligned(NONE_YET, REST, Steps(lines, 0, REST)) <==> BlocksNeutral(Steps(lines, 0, REST))
  {
    StepsFaithful(lines, 0, REST);
    AlignedIffNeutral(NONE_YET, REST, Steps(lines, 0, REST));
  }

  function StepClasses(c: Collected, step: Step): seq<LineClass> {
    match step
    case Copied(_, class_) => [class_]
    case Verbatim(block) => Classes(REST, block)
    case Numbered(_, _) => seq(|c.Separator()| + 2, _ => TextLine)
  }

  function CollectedClasses(c: Collected, steps: seq<Step>): seq<LineClass>
    decreases |steps|
  {
    if steps == [] then [] else StepClasses(c, steps[0]) + CollectedClasses(c.Then(steps[0]), steps[1..])
  }

  lemma ThenClasses(c: Collected, s: Scan, step: Step)
    requires AdvanceAll(REST, c.out) == s
    requires TakenIn(step, s)
    ensures Classes(REST, c.Then(step).out) == Classes(REST, c.out) + StepClasses(c, step)
  {
    hide Advance, FigureToken, Classify;
    match step {
      case Copied(line, class_) =>
        ScanAppend(REST, c.out, [line]);
        assert Classes(s, [line]) == [class_];
      case Verbatim(block) => ScanAppend(REST, c.out, block);
      case Numbered(figure, _) =>
        FigureLinesRest(c);
        ScanAppend(REST, c.out, c.Separator() + [FigureToken(|c.figures|), ""]);
        assert c.out + c.Separator() + [FigureToken(|c.figures|), ""]
            == c.out + (c.Separator() + [FigureToken(|c.figures|), ""]);
    }
  }

  /** Every line the replacing pass reads gets the class the collecting pass gave it. */
  lemma {:induction false} ClassesAgree(c: Collected, s: Scan, steps: seq<Step>)
    requires AdvanceAll(REST, c.out) == s && Faithful(steps, s) && BlocksNeutral(steps)
    ensures Classes(REST, Emit(c, steps).out) == Classes(REST, c.out) + CollectedClasses(c, steps)
    decreases |steps|
  {
    hide AfterStep, TakenIn, Neutral, StepClasses, Collected.Then, Classes, AdvanceAll;
    if steps == [] {
      assert Classes(REST, c.out) + [] == Classes(REST, c.out);
    } else {
      ThenScans(c, s, steps[0]);
      ThenClasses(c, s, steps[0]);
      ClassesAgree(c.Then(steps[0]), AfterStep(s, steps[0]), steps[1..]);
      var before, own, rest := Classes(REST, c.out), StepClasses(c, steps[0]), CollectedClasses(c.Then(steps[0]), steps[1..]);
      assert (before + own) + rest == before + (own + rest);
    }
  }

  // ---------------------------------------------------------------- fenced text

  function StepFenced(step: Step): seq<string> {
    match step
    case Copied(line, class_) => if class_ == FenceLine then [line] else []
    case Verbatim(block) => Pick(block, Classes(REST, block), FenceLine)
    case Numbered(_, _) => []
  }

  /** The fenced lines of the source, as the collecting pass sees them. */
  function FencedSource(steps: seq<Step>): seq<string> {
    if steps == [] then [] else StepFenced(steps[0]) + FencedSource(steps[1..])
  }

  /** The lines one step writes. */
  function Written(c: Collected, step: Step): seq<string> {
    match step
    case Copied(line, _) => [line]
    case Verbatim(block) => block
    case Numbered(_, _) => c.Separator() + [FigureToken(|c.figures|), ""]
  }

  lemma ThenWrites(c: Collected, step: Step)
    ensures c.Then(step).out == c.out + Written(c, step)
    ensures |StepClasses(c, step)| == |Written(c, step)|
    ensures Pick(Written(c, step), StepClasses(c, step), FenceLine) == StepFenced(step)
  {
    hide FigureToken;
    match step {
      case Copied(line, class_) =>
        assert Pick([line][1..], [class_][1..], FenceLine) == [];
      case Verbatim(block) =>
      case Numbered(figure, _) =>
        PickOther(Written(c, step), TextLine, FenceLine);
    }
  }

  lemma {:induction false} CollectedFences(c: Collected, classes: seq<LineClass>, steps: seq<Step>)
    requires |classes| == |c.out|
    ensures |CollectedClasses(c, steps)| + |classes| == |Emit(c, steps).out|
    ensures Pick(Emit(c, steps).out, classes + CollectedClasses(c, steps), FenceLine)
         == Pick(c.out, classes, FenceLine) + FencedSource(steps)
    decreases |steps|
  {
    hide StepClasses, StepFenced, Written, Pick, Collected.Then;
    if steps == [] {
      assert classes + [] == classes;
    } else {
      var step := steps[0];
      var next := c.Then(step);
      ThenWrites(c, step);
      PickAppend(c.out, Written(c, step), classes, StepClasses(c, step), FenceLine);
      CollectedFences(next, classes + StepClasses(c, step), steps[1..]);
      assert classes + (StepClasses(c, step) + CollectedClasses(next, steps[1..]))
          == classes + StepClasses(c, step) + CollectedClasses(next, steps[1..]);
    }
  }

  /** Fenced code comes out of both passes line for line as it went in. */
  lemma FencedTextUnchanged(lines: seq<string>, rewrite: string -> string)
    requires BlocksNeutral(Steps(lines, 0, REST))
    ensures var prepared := Collect(lines).out;
            var final := RewriteText(prepared, REST, rewrite);
            Pick(final, Classes(REST, prepared), FenceLine) == FencedSource(Steps(lines, 0, REST))
  {
    var steps := Steps(lines, 0, REST);
    hide Steps;
    StepsFaithful(lines, 0, REST);
    ClassesAgree(NONE_YET, REST, steps);
    CollectedFences(NONE_YET, [], steps);
    assert [] + CollectedClasses(NONE_YET, steps) == CollectedClasses(NONE_YET, steps);
    RewriteKeeps(Collect(lines).out, rewrite, FenceLine);
  }

  /** The block of a numbered figure leaves the scanner at rest and holds no code fence. */
  ghost predicate FiguresHoldNoCode(steps: seq<Step>) {
    forall k :: 0 <= k < |steps| && steps[k].Numbered? ==> Neutral(steps[k].source) && Fenced(steps[k].source) == []
  }

  lemma OwnFences(step: Step, s: Scan)
    requires TakenIn(step, s)
    requires step.Verbatim? ==> Neutral(step.block)
    requires step.Numbered? ==> Neutral(step.source) && Fenced(step.source) == []
    ensures AdvanceAll(s, StepSource(step)) == AfterStep(s, step)
    ensures Pick(StepSource(step), Classes(s, StepSource(step)), FenceLine) == StepFenced(step)
  {
    hide Advance, Classify;
    if step.Copied? {
      assert Classes(s, [step.line]) == [step.class_];
      PickOther([step.line], step.class_, FenceLine);
      assert seq(1, _ => step.class_) == [step.class_];
      assert AdvanceAll(s, [step.line]) == Advance(s, step.line) by { assert AdvanceAll(Advance(s, step.line), []) == Advance(s, step.line); }
    }
  }

  lemma {:induction false} StepFences(steps: seq<Step>, s: Scan)
    requires Faithful(steps, s) && BlocksNeutral(steps) && FiguresHoldNoCode(steps)
    ensures Pick(SourceLines(steps), Classes(s, SourceLines(steps)), FenceLine) == FencedSource(steps)
    decreases |steps|
  {
    hide TakenIn, AfterStep, StepFenced, Neutral, Fenced, AdvanceAll, Pick;
    if steps == [] {
      assert Classes(s, []) == [] && seq(0, _ => TextLine) == [];
      PickOther([], TextLine, FenceLine);
    } else {
      assert steps == [steps[0]] + steps[1..];
      var own, rest, next := StepSource(steps[0]), SourceLines(steps[1..]), AfterStep(s, steps[0]);
      StepFences(steps[1..], next);
      OwnFences(steps[0], s);
      ScanAppend(s, own, rest);
      PickAppend(own, rest, Classes(s, own), Classes(next, rest), FenceLine);
    }
  }

  /** The steps find the code that the scanner finds in the source. */
  lemma SourceFences(lines: seq<string>)
    requires BlocksNeutral(Steps(lines, 0, REST)) && FiguresHoldNoCode(Steps(lines, 0, REST))
    ensures FencedSource(Steps(lines, 0, REST)) == Fenced(lines)
  {
    hide Steps, BlocksNeutral, FiguresHoldNoCode;
    StepsFaithful(lines, 0, REST);
    StepsCoverSource(lines, 0, REST);
    StepFences(Steps(lines, 0, REST), REST);
    assert lines[0..] == lines;
  }

  // ---------------------------------------------------------------- numbering

  function FiguresOf(steps: seq<Step>): seq<Figure> {
    if steps == [] then []
    else (if steps[0].Numbered? then [steps[0].figure] else []) + FiguresOf(steps[1..])
  }

  lemma {:induction false} EmitFigures(c: Collected, steps: seq<Step>)
    ensures Emit(c, steps).figures == c.figures + FiguresOf(steps)
    ensures c.out <= Emit(c, steps).out
    decreases |steps|
  {
    hide FigureToken;
    if steps != [] {
      EmitFigures(c.Then(steps[0]), steps[1..]);
      ThenWrites(c, steps[0]);
    }
  }

  lemma {:induction false} EmitAppend(c: Collected, a: seq<Step>, b: seq<Step>)
    ensures Emit(c, a + b) == Emit(Emit(c, a), b)
    decreases |a|
  {
    hide Collected.Then;
    if a == [] {
      assert a + b == b;
    } else {
      assert (a + b)[1..] == a[1..] + b;
      EmitAppend(c.Then(a[0]), a[1..], b);
    }
  }

  /** The figure that `k` others precede becomes figure `k + 1`: its token stands where its block stood, after
      everything the earlier steps wrote, and the map holds it under that token. */
  lemma FigureTakesItsNumber(steps: seq<Step>, j: nat)
    requires j < |steps| && steps[j].Numbered?
    ensures var k := |FiguresOf(steps[..j])|;
            var all, before := Emit(NONE_YET, steps), Emit(NONE_YET, steps[..j]);
            && before.out + before.Separator() + [FigureToken(k), ""] <= all.out
            && k < |all.figures| && all.figures[k] == steps[j].figure
            && FigureToken(k) in FigureMap(all.figures)
            && FigureMap(all.figures)[FigureToken(k)] == Rendered(steps[j].figure, k + 1, Anchor(all.figures, k))
  {
    hide FigureToken, Anchor;
    var before := Emit(NONE_YET, steps[..j]);
    EmitFigures(NONE_YET, steps[..j]);
    assert [] + FiguresOf(steps[..j]) == FiguresOf(steps[..j]);
    assert steps == steps[..j] + steps[j..];
    EmitAppend(NONE_YET, steps[..j], steps[j..]);
    EmitFigures(before.Then(steps[j]), steps[j + 1..]);
    assert steps[j..][1..] == steps[j + 1..];
    FigureMapNumbers(Emit(NONE_YET, steps).figures);
  }

  // ---------------------------------------------------------------- resolving references

  function ReferenceMarkdown(content: string, raw: string, references: map<string, Reference>, named: bool): string {
    var key := TrimSpace(content);
    if key !in references then
      if named then "Figure ??" else if "fig:" <= key then "??" else raw
    else
      var text := (if named then "Figure " else "") + references[key].number;
      "[" + EscapeLinkText(text) + "](#" + references[key].anchor + ")"
  }

  /** Every resolved reference shows the number and the anchor of the first figure with its label. */
  lemma ReferenceShowsFirst(figures: seq<Figure>, content: string, raw: string, named: bool)
    requires TrimSpace(content) in References(figures)
    ensures var first := FirstWithLabel(figures, LabelOf, TrimSpace(content));
            && first.Some?
            && ReferenceMarkdown(content, raw, References(figures), named)
               == "[" + ((if named then "Figure " else "") + Decimal(first.value + 1)) + "](#"
                  + Anchor(figures, first.value) + ")"
  {
    hide PrefixedAnchor, EscapeLinkText, Decimal;
    var key := TrimSpace(content);
    ReferencesResolveFirst(figures, key);
    var k := FirstWithLabel(figures, LabelOf, key).value;
    EscapedNumber(k + 1, named);
    FirstAnchor(figures, key);
  }

  lemma EscapedNumber(n: nat, named: bool)
    ensures var text := (if named then "Figure " else "") + Decimal(n); EscapeLinkText(text) == text
  {
    EscapeLinkPlain((if named then "Figure " else "") + Decimal(n));
  }

  lemma FirstAnchor(figures: seq<Figure>, key: string)
    requires key != "" && FirstWithLabel(figures, LabelOf, key).Some?
    ensures Anchor(figures, FirstWithLabel(figures, LabelOf, key).value) == PrefixedAnchor("fig-", key)
  {
    hide PrefixedAnchor;
    ReferencesResolveFirst(figures[..FirstWithLabel(figures, LabelOf, key).value], key);
  }

  function Resolve(references: map<string, Reference>, named: bool): (string, string) -> string {
    (content, raw) => ReferenceMarkdown(content, raw, references, named)
  }

  function RewriteLine(references: map<string, Reference>): string -> string {
    (line: string) => REF.ReplaceFrom(FIGREF.ReplaceFrom(line, 0, Resolve(references, true)), 0, Resolve(references, false))
  }

  /** Both passes over the lines of a source; replacing is skipped when no figure has a label. */
  function Prepared(lines: seq<string>): seq<string> {
    var c := Collect(lines);
    var references := References(c.figures);
    if references == map[] then c.out else RewriteText(c.out, REST, RewriteLine(references))
  }

  // ---------------------------------------------------------------- the code

  lemma OneMoreFigure(figures: seq<Figure>, figure: Figure)
    ensures var all, n, references := figures + [figure], |figures|, References(figures);
            var anchor := PrefixedAnchor("fig-", figure.key);
            && References(all) == (if figure.key == "" || figure.key in references then references
                                   else references[figure.key := Reference(Decimal(n + 1), anchor)])
            && FigureMap(all) == FigureMap(figures)[FigureToken(n) := Rendered(figure, n + 1, Anchor(all, n))]
            && Anchor(all, n) == (if figure.key == "" then ""
                                  else if figure.key in references then anchor + "-" + Decimal(n + 1)
                                  else anchor)
  {
    hide FigureToken, PrefixedAnchor, Decimal;
    var all := figures + [figure];
    assert all[..|figures|] == figures;
    assert References(all[..|figures|]) == References(figures) && FigureMap(all[..|figures|]) == FigureMap(figures);
  }

  /** Appends the token of one more figure; `before` is what has been collected. */
  method AppendFigureToken(
    out: seq<string>, references: map<string, Reference>, figures: map<string, Rendered>,
    figure: Figure, number: nat, ghost before: Collected)
    returns (out': seq<string>, references': map<string, Reference>, figures': map<string, Rendered>)
    requires out == before.out && references == References(before.figures) && figures == FigureMap(before.figures)
    requires number == |before.figures| + 1
    ensures forall source: seq<string> :: var c := before.Then(Numbered(figure, source));
            out' == c.out && references' == References(c.figures) && figures' == FigureMap(c.figures)
  {
    hide FigureToken, PrefixedAnchor, References, FigureMap, Anchor;
    FigureMapNumbers(before.figures);
    OneMoreFigure(before.figures, figure);
    out', references' := out, references;
    if |out| > 0 && TrimSpace(out[|out| - 1]) != "" {
      out' := out' + [""];
    }
    var anchor := "";
    if figure.key != "" {
      anchor := PrefixedAnchorID("fig-", figure.key);
      if figure.key !in references {
        references' := references[figure.key := Reference(Decimal(number), anchor)];
      } else {
        anchor := anchor + "-" + Decimal(|figures| + 1);
      }
    }
    var token := FigureToken(|figures|);
    figures' := figures[token := Rendered(figure, number, anchor)];
    out' := out' + [token, ""];
  }

  method CollectFigureReferences(lines: seq<string>)
    returns (out: seq<string>, references: map<string, Reference>, figures: map<string, Rendered>)
    ensures var c := Collect(lines);
            out == c.out && references == References(c.figures) && figures == FigureMap(c.figures)
  {
    hide Classify, Advance, ParseFigureBody, ParseStandaloneLine, FindLine, References, FigureMap, Steps, Emit, TrimSpace, Join;
    out, references, figures := [], map[], map[];
    NoFigures();
    var figureNumber := 0;
    var state := new LineState();
    ghost var now := NONE_YET;
    var i := 0;
    while i < |lines|
      invariant i <= |lines| && state.Valid()
      invariant Collect(lines) == Emit(now, Steps(lines, i, state.State()))
      invariant out == now.out && references == References(now.figures) && figures == FigureMap(now.figures)
      invariant figureNumber == |now.figures|
    {
      var line := lines[i];
      var trimmed := TrimSpace(line);
      ghost var s := state.State();
      TextOnlyAtRest(s, line);
      EmitNextStep(now, lines, i, s);
      ghost var step := NextStep(lines, i, s).0;
      var class_ := state.Step(line);
      if class_ == TextLine && trimmed == BEGIN {
        var end := FindLineIndex(lines, i + 1, END);
        if end == -1 {
          out := out + [line];
          i := i + 1;
        } else {
          match ParseFigureBody(Join(lines[i + 1..end])) {
            case None =>
              out := out + lines[i..end + 1];
            case Some(figure) =>
              figureNumber := figureNumber + 1;
              out, references, figures := AppendFigureToken(out, references, figures, figure, figureNumber, now);
          }
          i := end + 1;
        }
      } else if class_ == TextLine {
        match ParseStandaloneLine(trimmed) {
          case None =>
            out := out + [line];
          case Some(figure) =>
            figureNumber := figureNumber + 1;
            out, references, figures := AppendFigureToken(out, references, figures, figure, figureNumber, now);
        }
        i := i + 1;
      } else {
        out := out + [line];
        i := i + 1;
      }
      now := now.Then(step);
    }
    NoMoreSteps(now, lines, state.State());
  }

  lemma EmitNextStep(c: Collected, lines: seq<string>, i: nat, s: Scan)
    requires i < |lines|
    ensures var (step, next) := NextStep(lines, i, s);
            Emit(c, Steps(lines, i, s)) == Emit(c.Then(step), Steps(lines, next, AfterStep(s, step)))
  {
    hide NextStep, AfterStep;
    var (step, next) := NextStep(lines, i, s);
    assert Steps(lines, i, s)[1..] == Steps(lines, next, AfterStep(s, step));
  }

  lemma NoMoreSteps(c: Collected, lines: seq<string>, s: Scan)
    ensures Emit(c, Steps(lines, |lines|, s)) == c
  {
  }

  lemma NoFigures()
    ensures References([]) == map[] && FigureMap([]) == map[]
  {
  }

  lemma ThenOneLineEach(c: Collected, step: Step)
    requires OneLineEach(c.out) && OneLineEach(StepSource(step)) && StepSource(step) != []
    ensures OneLineEach(c.Then(step).out) && c.Then(step).out != []
  {
    hide TrimSpace;
    var token := FigureToken(|c.figures|);
    assert '\n' !in token;
  }

  /** The prepared lines are lines: joining and splitting them again changes nothing. */
  lemma {:induction false} EmitOneLineEach(c: Collected, lines: seq<string>, i: nat, s: Scan)
    requires i <= |lines| && OneLineEach(lines) && OneLineEach(c.out)
    ensures var out := Emit(c, Steps(lines, i, s)).out; OneLineEach(out) && (c.out != [] || i < |lines| ==> out != [])
    decreases |lines| - i
  {
    hide NextStep, AfterStep, Collected.Then, Emit;
    if i == |lines| {
      NoMoreSteps(c, lines, s);
    } else {
      var (step, next) := NextStep(lines, i, s);
      NextStepTakes(lines, i, s);
      EmitNextStep(c, lines, i, s);
      assert OneLineEach(lines[i..next]);
      ThenOneLineEach(c, step);
      EmitOneLineEach(c.Then(step), lines, next, AfterStep(s, step));
    }
  }

  method PrepareFigureReferences(source: string) returns (prepared: string, figures: map<string, Rendered>)
    ensures var lines := Split(UnixNewlines(source));
            prepared == Join(Prepared(lines)) && figures == FigureMap(Collect(lines).figures)
  {
    hide Steps, Emit, References, FigureMap, RewriteLine;
    var lines := Split(UnixNewlines(source));
    var out, references;
    out, references, figures := CollectFigureReferences(lines);
    prepared := Join(out);
    if |references| != 0 {
      EmitOneLineEach(NONE_YET, lines, 0, REST);
      SplitJoin(out);
      out := RewriteLines(Split(prepared), RewriteLine(references));
      prepared := Join(out);
    }
  }

  lemma FenceBlockIsVerbatim()
    ensures var lines := [BEGIN, "```", END]; Steps(lines, 0, REST) == [Verbatim(lines)]
  {
    hide FenceMarker, Advance, AdvanceAll, TrimSpace;
    var lines := [BEGIN, "```", END];
    DelimitersAreText();
    assert FindLine(lines, 1, END) == FindLine(lines, 2, END) == Some(2);
    assert lines[1..2] == ["```"] && lines[0..3] == lines;
    assert ParseFigureBody("```") == None by { assert FirstImage("```", 1) == FirstImage("```", 2) == None; }
  }

  lemma DelimitersTrimmed()
    ensures TrimSpace(BEGIN) == BEGIN && TrimSpace(END) == END && TrimSpace("```") == "```"
  {
    assert Trimmed(BEGIN) && Trimmed(END) && Trimmed("```");
  }

  lemma DelimitersAreText()
    ensures TrimSpace(BEGIN) == BEGIN && TrimSpace(END) == END && TrimSpace("```") == "```"
    ensures Classify(REST, BEGIN) == TextLine && Advance(REST, BEGIN) == REST
  {
    hide TrimSpace, RunLength, NextFence;
    DelimitersTrimmed();
    assert BEGIN[0] == '\\';
    assert FenceMarker(BEGIN) == "";
    assert EquationEnd(BEGIN) == "";
  }

  /** A block that is not neutral: an image-less figure around an opening fence leaves the replacing pass
      inside that fence while the collecting pass is at rest. */
  lemma UnparsedBlockMayDiverge()
    ensures var lines := [BEGIN, "```", END];
            Steps(lines, 0, REST) == [Verbatim(lines)] && !Neutral(lines)
  {
    hide Steps, FindLine, ParseFigureBody, TrimSpace;
    FenceBlockIsVerbatim();
    DelimitersAreText();
    var lines := [BEGIN, "```", END];
    assert FenceMarker("```") == "```" by { assert RunLength("```"[1..], '`') == 2; }
    assert lines[1..] == ["```", END] && lines[1..][1..] == [END];
    var fenced := Scan("```", "");
    assert Advance(REST, "```") == fenced && Advance(fenced, END) == fenced;
    assert AdvanceAll(fenced, [END]) == AdvanceAll(fenced, []) == fenced;
    assert AdvanceAll(REST, lines[1..]) == AdvanceAll(fenced, [END]);
  }
}
