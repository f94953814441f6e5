/** The conditions of the equation pass, read off the source line by line, before the figure pass has touched it. */
module SourceBlocks {
  import opened Text
  import opened Substitution
  import opened MarkdownLines
  import opened Patterns
  import opened LineScanner
  import opened Links
  import opened Equations
  import opened EquationPasses
  import opened Rewriting
  import Figures
  import opened Rendering

  /** The scanner, the lines of the display block it is in, and whether every block so far was fine. */
  datatype Reading = Reading(scan: Scan, body: seq<string>, fine: bool)

  /** One more line. A block is fine when no line of it is code, and its body, without its labels, does not hold its
      own end. */
  function Read(r: Reading, line: string): Reading {
    var next := Advance(r.scan, line);
    match Classify(r.scan, line)
    case FenceLine => Reading(next, r.body, r.fine && r.scan.equation == "")
    case TextLine => Reading(next, [], r.fine)
    case EquationLine =>
      if r.scan.equation == "" then Reading(next, [], r.fine)
      else if next.equation == "" then Reading(next, [], r.fine && QuietLines(Split(Bare(Join(r.body))), r.scan.equation))
      else Reading(next, r.body + [line], r.fine)
  }

  function ReadAll(r: Reading, lines: seq<string>): Reading
    decreases |lines|
  {
    if lines == [] then r else ReadAll(Read(r, lines[0]), lines[1..])
  }

  const START := Reading(REST, [], true)

  predicate Ends(r: Reading) { r.fine && r.scan.equation == "" }

  /** Every display block of the text is closed and fine. */
  predicate Tidy(lines: seq<string>) { Ends(ReadAll(START, lines)) }

  lemma {:induction false} ReadAppend(r: Reading, a: seq<string>, b: seq<string>)
    ensures ReadAll(r, a + b) == ReadAll(ReadAll(r, a), b)
    decreases |a|
  {
    hide Read;
    if a == [] {
      assert a + b == b;
    } else {
      assert (a + b)[1..] == a[1..] + b;
      ReadAppend(Read(r, a[0]), a[1..], b);
    }
  }

  lemma {:induction false} NeverFineAgain(r: Reading, lines: seq<string>)
    requires !r.fine
    ensures !ReadAll(r, lines).fine
    decreases |lines|
  {
    hide Classify, Advance, QuietLines;
    if lines != [] { NeverFineAgain(Read(r, lines[0]), lines[1..]); }
  }

  // ---------------------------------------------------------------- the steps of the equation pass

  lemma CopiedReads(step: Step, fence: string, fine: bool)
    requires step.Copied? && TakenIn(step, fence)
    ensures Read(Reading(AsScan(fence), [], fine), step.line) == Reading(AsScan(AfterStep(fence, step)), [], fine)
  {
    hide TrimSpace;
  }

  /** Within a block, lines that do not end it are its body, until one of them is code. */
  lemma {:induction false} BodyReads(end: string, body: seq<string>, lines: seq<string>, fine: bool)
    requires end != "" && forall k :: 0 <= k < |lines| ==> TrimSpace(lines[k]) != end
    ensures var r := ReadAll(Reading(Scan("", end), body, fine), lines);
            if NoFence(lines) then r == Reading(Scan("", end), body + lines, fine) else !r.fine
    decreases |lines|
  {
    hide FenceMarker, TrimSpace, QuietLines, Bare, Split, Join;
    var r := Reading(Scan("", end), body, fine);
    if lines == [] {
      assert body + lines == body;
    } else if FenceMarker(TrimSpace(lines[0])) == "" {
      BodyReads(end, body + [lines[0]], lines[1..], fine);
      assert body + [lines[0]] + lines[1..] == body + lines;
      assert NoFence(lines) <==> NoFence(lines[1..]) by { FenceLater(lines); }
    } else {
      NeverFineAgain(Read(r, lines[0]), lines[1..]);
    }
  }

  lemma FenceLater(lines: seq<string>)
    requires lines != [] && FenceMarker(TrimSpace(lines[0])) == ""
    ensures NoFence(lines) <==> NoFence(lines[1..])
  {
    hide FenceMarker, TrimSpace;
    if NoFence(lines[1..]) {
      forall k | 0 <= k < |lines| ensures FenceMarker(TrimSpace(lines[k])) == "" {
        if k > 0 { assert lines[k] == lines[1..][k - 1]; }
      }
    }
  }

  lemma OpeningReads(step: Step, fence: string, fine: bool)
    requires step.Display? && TakenIn(step, fence)
    ensures Read(Reading(REST, [], fine), step.source[0]) == Reading(Scan("", Closing(step)), [], fine)
  {
    hide Join, Contained;
    SourceDelimiters(step, fence);
  }

  lemma ClosingReads(step: Step, fence: string, fine: bool)
    requires step.Display? && TakenIn(step, fence)
    ensures Read(Reading(Scan("", Closing(step)), Interior(step.source), fine), step.source[|step.source| - 1])
         == Reading(REST, [], fine && Contained(step))
  {
    hide QuietLines, Split, Bare, Join, Opening, Closing;
    SourceDelimiters(step, fence);
  }

  lemma DisplayReads(step: Step, fence: string, fine: bool)
    requires step.Display? && TakenIn(step, fence)
    ensures var r := ReadAll(Reading(REST, [], fine), step.source);
            if NoFence(Interior(step.source)) then r == Reading(REST, [], fine && Contained(step)) else !r.fine
  {
    hide Read, Join, NoFence, Contained, Opening, Closing, TrimSpace, FenceMarker;
    var source, end := step.source, Closing(step);
    var first, body, last := [source[0]], Interior(source), [source[|source| - 1]];
    var r := Reading(REST, [], fine);
    assert source == first + (body + last);
    ReadAppend(r, first, body + last);
    ReadOne(r, source[0]);
    OpeningReads(step, fence, fine);
    var inside := Reading(Scan("", end), [], fine);
    ReadAppend(inside, body, last);
    BodyReads(end, [], body, fine);
    assert [] + body == body;
    if NoFence(body) {
      ReadOne(Reading(Scan("", end), body, fine), source[|source| - 1]);
      ClosingReads(step, fence, fine);
    } else {
      NeverFineAgain(ReadAll(inside, body), last);
    }
  }

  lemma ReadOne(r: Reading, line: string)
    ensures ReadAll(r, [line]) == Read(r, line)
  {
    hide Read;
    assert ReadAll(Read(r, line), []) == Read(r, line);
  }

  /** What nothing closes stays open. */
  lemma {:induction false} StaysOpen(r: Reading, end: string, lines: seq<string>)
    requires end != "" && r.scan.equation == end && forall k :: 0 <= k < |lines| ==> TrimSpace(lines[k]) != end
    ensures ReadAll(r, lines).scan.equation == end
    decreases |lines|
  {
    hide FenceMarker, TrimSpace, QuietLines, NextFence;
    if lines != [] { StaysOpen(Read(r, lines[0]), end, lines[1..]); }
  }

  lemma UnclosedReads(lines: seq<string>, i: nat, fence: string, fine: bool)
    requires i < |lines| && NextStep(lines, i, fence).0.Unclosed?
    ensures fence == "" && !Ends(ReadAll(Reading(REST, [], fine), lines[i..]))
  {
    hide FenceMarker, TrimSpace, QuietLines, NextFence;
    var end := EquationEnd(TrimSpace(lines[i]));
    assert FindLine(lines, i + 1, end).None?;
    assert lines[i..][0] == lines[i] && lines[i..][1..] == lines[i + 1..];
    StaysOpen(Read(Reading(REST, [], fine), lines[i]), end, lines[i + 1..]);
  }

  ghost predicate StepsFine(steps: seq<Step>)
    requires Opened(steps)
  {
    BlocksContained(steps) && NoFenceInBlocks(steps)
  }

  ghost predicate StepFine(step: Step)
    requires step.Display? ==> step.source != []
  {
    !step.Unclosed? && (step.Display? ==> Contained(step) && (|step.source| >= 2 ==> NoFence(Interior(step.source))))
  }

  lemma StepsFineFirst(steps: seq<Step>)
    requires Opened(steps) && steps != []
    ensures Opened(steps[1..]) && (StepsFine(steps) <==> StepFine(steps[0]) && StepsFine(steps[1..]))
  {
    hide Contained, NoFence, Closing;
    assert steps == [steps[0]] + steps[1..];
  }

  lemma {:induction false} ReadingSteps(lines: seq<string>, i: nat, fence: string, fine: bool)
    requires i <= |lines|
    ensures Ends(ReadAll(Reading(AsScan(fence), [], fine), lines[i..])) <==> fine && StepsFine(Steps(lines, i, fence))
    decreases |lines| - i
  {
    hide NextStep, AfterStep, Read, StepsFine, TakenIn, Contained, NoFence;
    var r := Reading(AsScan(fence), [], fine);
    if i == |lines| {
      assert lines[i..] == [];
      NothingFine();
    } else {
      var (step, next) := NextStep(lines, i, fence);
      NextStepTakes(lines, i, fence);
      var rest := Steps(lines, next, AfterStep(fence, step));
      assert Steps(lines, i, fence) == [step] + rest && ([step] + rest)[1..] == rest;
      StepsFineFirst(Steps(lines, i, fence));
      assert lines[i..] == lines[i..next] + lines[next..];
      ReadAppend(r, lines[i..next], lines[next..]);
      match step {
        case Unclosed(_) => UnclosedReads(lines, i, fence, fine);
        case Copied(line, _) =>
          CopiedReads(step, fence, fine);
          ReadOne(r, line);
          ReadingSteps(lines, next, AfterStep(fence, step), fine);
        case Display(_, source) =>
          DisplayTaken(step, fence);
          DisplayReads(step, fence, fine);
          if NoFence(Interior(source)) {
            ReadingSteps(lines, next, AfterStep(fence, step), fine && Contained(step));
          } else {
            NeverFineAgain(ReadAll(r, source), lines[next..]);
          }
      }
    }
  }

  lemma NothingFine()
    ensures StepsFine([])
  {
  }

  lemma DisplayTaken(step: Step, fence: string)
    requires step.Display? && TakenIn(step, fence)
    ensures |step.source| >= 2 && fence == "" && AfterStep(fence, step) == ""
  {
    hide Join;
  }

  /** A text is tidy if and only if the equation pass finds all its blocks closed, free of code and of their own end. */
  lemma TidyIffStepsFine(lines: seq<string>)
    ensures Tidy(lines)
       <==> BlocksContained(Steps(lines, 0, "")) && NoFenceInBlocks(Steps(lines, 0, ""))
  {
    ReadingSteps(lines, 0, "", true);
    assert lines[0..] == lines;
  }

  // ---------------------------------------------------------------- through the figure pass

  /** Outside a block there is no body. */
  predicate Proper(r: Reading) { r.scan.equation == "" ==> r.body == [] }

  lemma ReadProper(r: Reading, line: string)
    requires Proper(r)
    ensures Proper(Read(r, line)) && Read(r, line).scan == Advance(r.scan, line)
  {
    hide TrimSpace, QuietLines, FenceMarker, NextFence;
  }

  lemma {:induction false} ReadAllProper(r: Reading, lines: seq<string>)
    requires Proper(r)
    ensures Proper(ReadAll(r, lines)) && ReadAll(r, lines).scan == AdvanceAll(r.scan, lines)
    decreases |lines|
  {
    hide Read, Advance, Proper;
    if lines != [] {
      ReadProper(r, lines[0]);
      ReadAllProper(Read(r, lines[0]), lines[1..]);
    }
  }

  /** The same place, and no worse so far. */
  predicate NoWorse(a: Reading, b: Reading) { a.scan == b.scan && a.body == b.body && (a.fine ==> b.fine) }

  lemma {:induction false} NoWorseLater(a: Reading, b: Reading, lines: seq<string>)
    requires NoWorse(a, b)
    ensures NoWorse(ReadAll(a, lines), ReadAll(b, lines))
    decreases |lines|
  {
    hide Classify, Advance, QuietLines, Join, Bare, Split;
    if lines != [] { NoWorseLater(Read(a, lines[0]), Read(b, lines[0]), lines[1..]); }
  }

  lemma {:induction false} ReadText(r: Reading, lines: seq<string>)
    requires Proper(r) && r.scan == REST && forall k :: 0 <= k < |lines| ==> Unremarkable(lines[k])
    ensures ReadAll(r, lines) == r
    decreases |lines|
  {
    hide FenceMarker, EquationEnd, TrimSpace, QuietLines;
    if lines != [] {
      assert Read(r, lines[0]) == r;
      ReadText(r, lines[1..]);
    }
  }

  /** Rewriting text changes nothing of what is read. */
  lemma {:induction false} ReadRewritten(r: Reading, lines: seq<string>, rewrite: string -> string)
    requires KeepsText(rewrite)
    ensures ReadAll(r, RewriteText(lines, r.scan, rewrite)) == ReadAll(r, lines)
    decreases |lines|
  {
    hide Unremarkable, KeepsText, QuietLines;
    if lines != [] {
      var line := lines[0];
      var shown := if Classify(r.scan, line) == TextLine then rewrite(line) else line;
      var rest := RewriteText(lines[1..], Advance(r.scan, line), rewrite);
      assert RewriteText(lines, r.scan, rewrite) == [shown] + rest && ([shown] + rest)[1..] == rest;
      RewrittenReads(r, line, rewrite);
      ReadRewritten(Read(r, line), lines[1..], rewrite);
    }
  }

  lemma RewrittenReads(r: Reading, line: string, rewrite: string -> string)
    requires KeepsText(rewrite)
    ensures var shown := if Classify(r.scan, line) == TextLine then rewrite(line) else line;
            Read(r, shown) == Read(r, line) && Read(r, line).scan == Advance(r.scan, line)
  {
    hide Unremarkable, QuietLines;
    TextOnlyAtRest(r.scan, line);
    UnremarkableIsText(line);
    UnremarkableIsText(rewrite(line));
    ReadAdvances(r, line);
  }

  lemma ReadAdvances(r: Reading, line: string)
    ensures Read(r, line).scan == Advance(r.scan, line)
  {
    hide Advance, QuietLines;
  }

  /** What the figure pass writes for a step reads no worse than the source of the step. */
  lemma StepReads(c: Figures.Collected, step: Figures.Step, r: Reading)
    requires Proper(r) && Figures.TakenIn(step, r.scan) && Figures.StepSource(step) != []
    requires step.Numbered? ==> Neutral(step.source)
    ensures c.Then(step).out == c.out + Figures.Written(c, step)
    ensures NoWorse(ReadAll(r, Figures.StepSource(step)), ReadAll(r, Figures.Written(c, step)))
  {
    hide Read, ReadAll, Figures.FigureToken, Classify, Proper;
    Figures.ThenWrites(c, step);
    if step.Numbered? {
      ReadAllProper(r, step.source);
      FigureLines(c);
      ReadText(r, Figures.Written(c, step));
      NoBodyAtRest(r, ReadAll(r, step.source));
      FineBefore(r, step.source);
    }
  }

  lemma NoBodyAtRest(a: Reading, b: Reading)
    requires Proper(a) && Proper(b) && a.scan == b.scan == REST
    ensures a.body == b.body == []
  {
  }

  lemma FineBefore(r: Reading, lines: seq<string>)
    ensures ReadAll(r, lines).fine ==> r.fine
  {
    hide ReadAll;
    if !r.fine { NeverFineAgain(r, lines); }
  }

  lemma FigureLines(c: Figures.Collected)
    ensures var written := c.Separator() + [Figures.FigureToken(|c.figures|), ""];
            forall k :: 0 <= k < |written| ==> Unremarkable(written[k])
  {
    var token := Figures.FigureToken(|c.figures|);
    assert Trimmed(token) by { assert !IsSpace(token[|token| - 1]) by { assert IsDigit(token[|token| - 1]); } }
    assert Unremarkable(token) by { assert token[0] == 'P'; }
    assert Unremarkable("");
  }

  ghost predicate FiguresNeutral(steps: seq<Figures.Step>) {
    forall k :: 0 <= k < |steps| && steps[k].Numbered? ==> Neutral(steps[k].source)
  }

  lemma {:induction false} CollectedReads(c: Figures.Collected, lines: seq<string>, i: nat, s: Scan, r: Reading)
    requires i <= |lines| && Proper(r) && r.scan == s
    requires Figures.BlocksNeutral(Figures.Steps(lines, i, s)) && FiguresNeutral(Figures.Steps(lines, i, s))
    requires ReadAll(START, c.out) == r
    ensures NoWorse(ReadAll(r, lines[i..]), ReadAll(START, Figures.Emit(c, Figures.Steps(lines, i, s)).out))
    decreases |lines| - i
  {
    hide Read, Proper, Neutral, Figures.NextStep, Figures.AfterStep, Figures.Collected.Then, Figures.Emit, Figures.TakenIn, Figures.Written;
    if i == |lines| {
      assert lines[i..] == [] && ReadAll(r, []) == r;
      Figures.NoMoreSteps(c, lines, s);
    } else {
      var (step, next) := Figures.NextStep(lines, i, s);
      Figures.NextStepTakes(lines, i, s);
      Figures.EmitNextStep(c, lines, i, s);
      var all, rest := Figures.Steps(lines, i, s), Figures.Steps(lines, next, Figures.AfterStep(s, step));
      assert all == [step] + rest && all[0] == step && forall k :: 0 <= k < |rest| ==> rest[k] == all[k + 1];
      assert lines[i..next] != [] && lines[i..] == lines[i..next] + lines[next..];
      StepReads(c, step, r);
      var own, written := lines[i..next], Figures.Written(c, step);
      ReadAppend(START, c.out, written);
      ReadAppend(r, own, lines[next..]);
      ReadAllProper(r, own);
      ReadAllProper(r, written);
      StepEnds(step, s);
      NoWorseLater(ReadAll(r, own), ReadAll(r, written), lines[next..]);
      CollectedReads(c.Then(step), lines, next, Figures.AfterStep(s, step), ReadAll(r, written));
    }
  }

  lemma StepEnds(step: Figures.Step, s: Scan)
    requires Figures.TakenIn(step, s)
    requires step.Verbatim? ==> Neutral(step.block)
    requires step.Numbered? ==> Neutral(step.source)
    ensures AdvanceAll(s, Figures.StepSource(step)) == Figures.AfterStep(s, step)
  {
    hide Advance, Classify;
    if step.Copied? { ScanOne(s, step.line); }
  }

  /** A tidy source stays tidy. */
  lemma TidyThroughFigures(lines: seq<string>)
    requires Figures.BlocksNeutral(Figures.Steps(lines, 0, REST)) && FiguresNeutral(Figures.Steps(lines, 0, REST))
    ensures Tidy(lines) ==> Tidy(Figures.Prepared(lines))
  {
    hide ReadAll, Figures.Steps, Figures.Emit, Figures.BlocksNeutral, FiguresNeutral, KeepsText, Figures.RewriteLine;
    var c := Figures.Collect(lines);
    assert ReadAll(START, []) == START by { NothingRead(); }
    CollectedReads(Figures.NONE_YET, lines, 0, REST, START);
    assert lines[0..] == lines;
    var rewrite := Figures.RewriteLine(Figures.References(c.figures));
    FigureLinesKeepText(Figures.References(c.figures));
    ReadRewritten(START, c.out, rewrite);
  }

  lemma NothingRead()
    ensures ReadAll(START, []) == START
  {
  }

  /** Through all passes the code of a tidy source stays as it is, line for line, if the blocks of its figures leave
      the scanner at rest and those of numbered ones hold no code. */
  lemma CodeOfSourceUnchanged(lines: seq<string>)
    requires Figures.BlocksNeutral(Figures.Steps(lines, 0, REST)) && Figures.FiguresHoldNoCode(Figures.Steps(lines, 0, REST))
    requires Tidy(lines)
    ensures Fenced(Equations.Prepared(Figures.Prepared(lines))) == Fenced(lines)
  {
    hide Figures.Steps, Figures.Prepared, Equations.Prepared, Tidy, Fenced, Figures.BlocksNeutral;
    assert FiguresNeutral(Figures.Steps(lines, 0, REST));
    TidyThroughFigures(lines);
    TidyIffStepsFine(Figures.Prepared(lines));
    CodeUnchanged(lines);
  }
}
