/** The replacing pass over equations has to read the lines as the collecting pass meant them. When it does is a
    matter of the source alone: of its display blocks, with their labels taken out. */
module EquationPasses {
  import opened Text
  import opened Substitution
  import opened MarkdownLines
  import opened Patterns
  import opened LineScanner
  import opened Links
  import opened Equations

  // ---------------------------------------------------------------- steps and source

  /** The state of the collecting pass as a state of the scanner: it never waits for an equation to end. */
  function AsScan(fence: string): Scan { Scan(fence, "") }

  function Interior(lines: seq<string>): seq<string>
    requires |lines| >= 2
  {
    lines[1..|lines| - 1]
  }

  /** The step fits the state of the scanner, and a display block runs from its opening delimiter to the first
      line with the closing one. */
  predicate TakenIn(step: Step, fence: string) {
    match step
    case Copied(line, class_) => class_ == Classify(AsScan(fence), line) && class_ != EquationLine
    case Unclosed(line) => fence == "" && FenceMarker(TrimSpace(line)) == "" && EquationEnd(TrimSpace(line)) != ""
    case Display(body, source) =>
      && fence == ""
      && |source| >= 2
      && Closing(step) != ""
      && TrimSpace(source[|source| - 1]) == Closing(step)
      && body == Join(Interior(source))
      && forall k :: 0 <= k < |Interior(source)| ==> TrimSpace(Interior(source)[k]) != Closing(step)
  }

  ghost predicate Faithful(steps: seq<Step>, fence: string)
    decreases |steps|
  {
    steps != [] ==> TakenIn(steps[0], fence) && Faithful(steps[1..], AfterStep(fence, steps[0]))
  }

  function StepSource(step: Step): seq<string> {
    match step
    case Copied(line, _) => [line]
    case Unclosed(line) => [line]
    case Display(_, source) => source
  }

  function SourceLines(steps: seq<Step>): seq<string> {
    if steps == [] then [] else StepSource(steps[0]) + SourceLines(steps[1..])
  }

  lemma NextStepTakes(lines: seq<string>, i: nat, fence: string)
    requires i < |lines|
    ensures var (step, next) := NextStep(lines, i, fence); StepSource(step) == lines[i..next] && TakenIn(step, fence)
  {
    hide FenceMarker, TrimSpace, Join;
    var (step, next) := NextStep(lines, i, fence);
    if step.Display? {
      InteriorIs(lines, i, next);
      assert FindLine(lines, i + 1, EquationEnd(TrimSpace(lines[i]))) == Some(next - 1);
      assert step.source[0] == lines[i] && step.source[|step.source| - 1] == lines[next - 1];
    }
  }

  lemma InteriorIs(lines: seq<string>, i: nat, next: nat)
    requires i + 1 < next <= |lines|
    ensures Interior(lines[i..next]) == lines[i + 1..next - 1]
  {
    var block, body := lines[i..next], lines[i + 1..next - 1];
    forall k | 0 <= k < |body| ensures Interior(block)[k] == body[k] {
      assert Interior(block)[k] == block[k + 1] == lines[i + 1 + k];
    }
  }

  lemma {:induction false} StepsFaithful(lines: seq<string>, i: nat, fence: string)
    requires i <= |lines|
    ensures Faithful(Steps(lines, i, fence), fence)
    decreases |lines| - i
  {
    hide NextStep, AfterStep, TakenIn;
    if i < |lines| {
      var (step, next) := NextStep(lines, i, fence);
      NextStepTakes(lines, i, fence);
      StepsFaithful(lines, next, AfterStep(fence, step));
      assert Steps(lines, i, fence)[1..] == Steps(lines, next, AfterStep(fence, step));
    }
  }

  /** The steps cut the source into consecutive pieces: no line is lost, repeated or moved. */
  lemma {:induction false} StepsCoverSource(lines: seq<string>, i: nat, fence: string)
    requires i <= |lines|
    ensures SourceLines(Steps(lines, i, fence)) == lines[i..]
    decreases |lines| - i
  {
    hide NextStep, AfterStep, StepSource, TakenIn;
    if i < |lines| {
      var (step, next) := NextStep(lines, i, fence);
      NextStepTakes(lines, i, fence);
      StepsCoverSource(lines, next, AfterStep(fence, step));
      assert Steps(lines, i, fence)[1..] == Steps(lines, next, AfterStep(fence, step));
      assert lines[i..] == lines[i..next] + lines[next..];
    }
  }

  // ---------------------------------------------------------------- what is written back, to the scanner

  /** The states the scanner can be in. */
  predicate Usual(s: Scan) {
    s.equation == "" || s.equation == "$$" || s.equation == "\\]"
  }

  /** Lines that change no state. */
  predicate Inert(line: string) {
    var trimmed := TrimSpace(line);
    FenceMarker(trimmed) == "" && trimmed != "$$" && trimmed != "\\[" && trimmed != "\\]"
  }

  lemma {:induction false} InertLines(s: Scan, lines: seq<string>)
    requires Usual(s) && forall k :: 0 <= k < |lines| ==> Inert(lines[k])
    ensures AdvanceAll(s, lines) == s
    decreases |lines|
  {
    hide FenceMarker, TrimSpace;
    if lines != [] {
      assert Advance(s, lines[0]) == s;
      InertLines(s, lines[1..]);
    }
  }

  lemma {:induction false} StaysUsual(s: Scan, lines: seq<string>)
    requires Usual(s)
    ensures Usual(AdvanceAll(s, lines))
    decreases |lines|
  {
    hide FenceMarker, TrimSpace, NextFence;
    if lines != [] { StaysUsual(Advance(s, lines[0]), lines[1..]); }
  }

  /** No line is a code fence or the end of the block. */
  predicate QuietLines(lines: seq<string>, end: string) {
    forall k :: 0 <= k < |lines| ==> FenceMarker(TrimSpace(lines[k])) == "" && TrimSpace(lines[k]) != end
  }

  predicate IsEnd(end: string) { end == "$$" || end == "\\]" }

  /** Two texts of lines that the scanner of a block cannot tell apart. */
  ghost predicate ReadAlike(a: seq<string>, b: seq<string>, s: Scan, end: string) {
    && AdvanceAll(s, a) == AdvanceAll(s, b)
    && (QuietLines(a, end) <==> QuietLines(b, end))
  }

  lemma InertIsQuiet(lines: seq<string>, end: string)
    requires IsEnd(end) && forall k :: 0 <= k < |lines| ==> Inert(lines[k])
    ensures QuietLines(lines, end)
  {
    hide FenceMarker, TrimSpace;
  }

  lemma QuietAppend(a: seq<string>, b: seq<string>, end: string)
    ensures QuietLines(a + b, end) <==> QuietLines(a, end) && QuietLines(b, end)
  {
    hide FenceMarker, TrimSpace;
    if QuietLines(a + b, end) {
      forall k | 0 <= k < |a| ensures FenceMarker(TrimSpace(a[k])) == "" && TrimSpace(a[k]) != end {
        assert (a + b)[k] == a[k];
      }
      forall k | 0 <= k < |b| ensures FenceMarker(TrimSpace(b[k])) == "" && TrimSpace(b[k]) != end {
        assert (a + b)[|a| + k] == b[k];
      }
    }
  }

  lemma InertTail(lines: seq<string>, tail: seq<string>, s: Scan, end: string)
    requires Usual(s) && IsEnd(end) && forall k :: 0 <= k < |tail| ==> Inert(tail[k])
    ensures ReadAlike(lines + tail, lines, s, end)
  {
    hide Inert, QuietLines;
    ScanAppend(s, lines, tail);
    StaysUsual(s, lines);
    InertLines(AdvanceAll(s, lines), tail);
    QuietAppend(lines, tail, end);
    InertIsQuiet(tail, end);
  }

  lemma AllInert(a: seq<string>, b: seq<string>, s: Scan, end: string)
    requires Usual(s) && IsEnd(end)
    requires forall k :: 0 <= k < |a| ==> Inert(a[k])
    requires forall k :: 0 <= k < |b| ==> Inert(b[k])
    ensures ReadAlike(a, b, s, end)
  {
    hide Inert, QuietLines;
    InertLines(s, a);
    InertLines(s, b);
    InertIsQuiet(a, end);
    InertIsQuiet(b, end);
  }

  lemma BlankIsInert(line: string)
    requires AllSpace(line)
    ensures Inert(line)
  {
  }

  lemma TagIsInert(line: string, number: string)
    requires AllSpace(line)
    ensures Inert(line + Tag(number)) && Inert(Tag(number))
  {
    var tag := Tag(number);
    assert tag[0] == '\\' && tag[1] == 't' && tag[|tag| - 1] == '}';
    TrimPadded(line, tag, "");
    TrimPadded("", tag, "");
    assert line + tag + "" == line + tag && "" + tag + "" == tag;
  }

  lemma {:induction false} NewlinesAtEnd(s: string, state: Scan, end: string)
    requires Usual(state) && IsEnd(end)
    ensures ReadAlike(Split(s), Split(TrimRightNewlines(s)), state, end)
    decreases |s|
  {
    hide AdvanceAll, QuietLines, Split, Inert;
    if s != "" && s[|s| - 1] == '\n' {
      var init := s[..|s| - 1];
      assert s == init + "\n" + "";
      SplitAppend(init, "");
      SplitOneLine("");
      BlankIsInert("");
      InertTail(Split(init), [""], state, end);
      NewlinesAtEnd(init, state, end);
    }
  }

  lemma {:induction false} BlankLines(s: string)
    requires AllSpace(s)
    ensures forall k :: 0 <= k < |Split(s)| ==> AllSpace(Split(s)[k])
    decreases |s|
  {
    match FirstNewline(s) {
      case None =>
      case Some(i) => BlankLines(s[i + 1..]);
    }
  }

  /** The tag is put after the last line, or on a line of its own; either way the scanner ignores it. */
  lemma TaggedReadAlike(kept: string, number: string, s: Scan, end: string)
    requires Usual(s) && IsEnd(end) && '\n' !in number
    ensures ReadAlike(Split(WithTag(kept, number)), Split(kept), s, end)
  {
    hide Split, Inert, ReadAlike, TrimSpace, AllSpace, IsEnd, Usual;
    var tag := Tag(number);
    assert '\n' !in tag;
    if TrimSpace(kept) != "" {
      SplitAppend(kept, tag);
      SplitOneLine(tag);
      assert AllSpace("") by { BlankLine(); }
      TagIsInert("", number);
      InertTail(Split(kept), [tag], s, end);
      assert WithTag(kept, number) == kept + "\n" + tag;
    } else {
      SplitExtends(kept, tag);
      BlankLines(kept);
      var lines := Split(kept);
      var last := |lines| - 1;
      assert WithTag(kept, number) == kept + tag;
      TagIsInert(lines[last], number);
      forall k | 0 <= k < |lines| ensures Inert(lines[k]) { BlankIsInert(lines[k]); }
      AllInert(lines[..last] + [lines[last] + tag], lines, s, end);
    }
  }

  lemma BlankLine()
    ensures AllSpace("")
  {
  }

  /** Numbering a block changes nothing the scanner looks at. */
  lemma RewrittenReadAlike(body: string, untagged: nat, s: Scan, end: string)
    requires Usual(s) && IsEnd(end)
    ensures ReadAlike(Split(NumberBody(body, untagged).1), Split(Bare(body)), s, end)
  {
    hide Split, Bare, FirstTag, QuietLines, AdvanceAll, WithTag, TrimRightNewlines, TrimSpace, Decimal;
    var bare := Bare(body);
    if FirstTag(bare, 0).None? {
      var kept := TrimRightNewlines(bare);
      assert '\n' !in Decimal(untagged + 1) by { DecimalOneLine(untagged + 1); }
      TaggedReadAlike(kept, Decimal(untagged + 1), s, end);
      NewlinesAtEnd(bare, s, end);
    }
  }

  lemma DecimalOneLine(n: nat)
    ensures '\n' !in Decimal(n)
  {
  }

  // ---------------------------------------------------------------- the two passes agree

  /** The lines of the body as they are written back. */
  function BodyLines(c: Collected, step: Step): seq<string>
    requires step.Display?
  {
    Split(NumberBody(step.body, Untagged(c.equations)).1)
  }

  /** After the source's body, without its labels, the closing delimiter still closes. */
  predicate ScansBack(step: Step)
    requires step.Display? && step.source != []
  {
    Advance(AdvanceAll(Scan("", Closing(step)), Split(Bare(step.body))), Closing(step)) == REST
  }

  /** No line of the source's body, without its labels, is a code fence or the end of the block. */
  predicate Contained(step: Step)
    requires step.Display? && step.source != []
  {
    QuietLines(Split(Bare(step.body)), Closing(step))
  }

  lemma BodyNotEmpty(body: string, untagged: nat)
    ensures NumberBody(body, untagged).1 != ""
  {
    hide TrimSpace;
  }

  lemma Delimiters(step: Step)
    requires step.Display? && step.source != [] && Closing(step) != ""
    ensures Advance(REST, Opening(step)) == Scan("", Closing(step))
    ensures TrimSpace(Closing(step)) == Closing(step) && FenceMarker(Closing(step)) == "" && IsEnd(Closing(step))
  {
    assert TrimSpace("$$") == "$$" && TrimSpace("\\]") == "\\]" && TrimSpace("\\[") == "\\[";
  }

  lemma CoreIs(c: Collected, step: Step)
    requires step.Display? && step.source != []
    ensures c.Core(step) == [Opening(step)] + BodyLines(c, step) + [Closing(step)]
  {
    hide NumberBody, Split, Opening, Closing;
    BodyNotEmpty(step.body, Untagged(c.equations));
  }

  /** Scanning the first lines of a block. */
  lemma BlockPrefix(c: Collected, step: Step, k: nat)
    requires step.Display? && step.source != [] && Closing(step) != "" && k <= |BodyLines(c, step)|
    ensures |c.Core(step)| == |BodyLines(c, step)| + 2
    ensures AdvanceAll(REST, c.Core(step)[..k + 1]) == AdvanceAll(Scan("", Closing(step)), BodyLines(c, step)[..k])
  {
    hide BodyLines, Advance, Opening, Closing, AdvanceAll, Collected.Core;
    Delimiters(step);
    CoreIs(c, step);
    var opening, first := [Opening(step)], BodyLines(c, step)[..k];
    assert c.Core(step)[..k + 1] == opening + first;
    ScanAppend(REST, opening, first);
    ScanOne(REST, Opening(step));
  }

  lemma ScanOne(s: Scan, line: string)
    ensures AdvanceAll(s, [line]) == Advance(s, line)
  {
    hide Advance;
    assert AdvanceAll(Advance(s, line), []) == Advance(s, line);
  }

  lemma BlockScans(c: Collected, step: Step)
    requires step.Display? && step.source != [] && Closing(step) != ""
    ensures Neutral(c.Core(step)) <==> ScansBack(step)
  {
    hide BodyLines, Advance, Opening, Closing, AdvanceAll, Collected.Core, Split, Bare, NumberBody, QuietLines;
    var n := |BodyLines(c, step)|;
    BlockPrefix(c, step, n);
    CoreIs(c, step);
    assert c.Core(step) == c.Core(step)[..n + 1] + [Closing(step)];
    assert BodyLines(c, step)[..n] == BodyLines(c, step);
    ScanAppend(REST, c.Core(step)[..n + 1], [Closing(step)]);
    ScanOne(AdvanceAll(Scan("", Closing(step)), BodyLines(c, step)), Closing(step));
    BodyReadAlike(c, step);
  }

  lemma BodyReadAlike(c: Collected, step: Step)
    requires step.Display? && step.source != [] && Closing(step) != ""
    ensures ReadAlike(BodyLines(c, step), Split(Bare(step.body)), Scan("", Closing(step)), Closing(step))
  {
    hide Split, Bare, NumberBody, ReadAlike;
    Delimiters(step);
    RewrittenReadAlike(step.body, Untagged(c.equations), Scan("", Closing(step)), Closing(step));
  }

  /** After each step the replacing pass, reading what was written so far, is in the collecting pass's state. */
  ghost predicate Aligned(c: Collected, fence: string, steps: seq<Step>)
    requires Opened(steps)
    decreases |steps|
  {
    && AdvanceAll(REST, c.out) == AsScan(fence)
    && (steps != [] ==> Aligned(c.Then(steps[0]), AfterStep(fence, steps[0]), steps[1..]))
  }

  /** Every opening delimiter is closed, and every block scans back. */
  ghost predicate BlocksScanBack(steps: seq<Step>)
    requires Opened(steps)
  {
    forall k :: 0 <= k < |steps| ==> !steps[k].Unclosed? && (steps[k].Display? ==> ScansBack(steps[k]))
  }

  lemma HeadingRests(c: Collected, key: string)
    ensures var heading := c.Heading(key);
            AdvanceAll(REST, heading) == REST && Classes(REST, heading) == seq(|heading|, _ => TextLine)
  {
    hide AnchorToken, Unremarkable;
    AnchorLinesUnremarkable(Labelled(c.equations));
    RestsOn(c.Heading(key));
  }

  lemma AnchorLinesUnremarkable(k: nat)
    ensures Unremarkable(AnchorToken(k)) && Unremarkable("")
  {
    var token := AnchorToken(k);
    assert Trimmed(token) by { assert IsDigit(token[|token| - 1]); }
    assert token[0] == 'P';
  }

  lemma ThenScans(c: Collected, fence: string, step: Step)
    requires AdvanceAll(REST, c.out) == AsScan(fence) && TakenIn(step, fence)
    ensures AdvanceAll(REST, c.Then(step).out) == AsScan(AfterStep(fence, step))
       <==> !step.Unclosed? && (step.Display? ==> Neutral(c.Core(step)))
  {
    hide NumberBody, AnchorToken, FenceMarker, ClosesFence;
    match step {
      case Copied(line, _) => ScanAppend(REST, c.out, [line]);
      case Unclosed(line) => ScanAppend(REST, c.out, [line]);
      case Display(body, _) =>
        var key := NumberBody(body, Untagged(c.equations)).0.key;
        HeadingRests(c, key);
        ScanAppend(REST, c.out, c.Written(step));
        ScanAppend(REST, c.Heading(key), c.Core(step));
    }
  }

  lemma {:induction false} AlignedIffScansBack(c: Collected, fence: string, steps: seq<Step>)
    requires Opened(steps) && AdvanceAll(REST, c.out) == AsScan(fence) && Faithful(steps, fence)
    ensures Aligned(c, fence, steps) <==> BlocksScanBack(steps)
    decreases |steps|
  {
    hide Neutral, TakenIn, AfterStep, ScansBack, Collected.Then, Collected.Core, AdvanceAll, AsScan;
    if steps != [] {
      ThenScans(c, fence, steps[0]);
      if steps[0].Display? { BlockScans(c, steps[0]); }
      if AdvanceAll(REST, c.Then(steps[0]).out) == AsScan(AfterStep(fence, steps[0])) {
        AlignedIffScansBack(c.Then(steps[0]), AfterStep(fence, steps[0]), steps[1..]);
        assert steps == [steps[0]] + steps[1..];
      }
    }
  }

  /** For every source: after each step both passes are in the same state, iff every display block is closed and
      its body, without its labels, does not keep its closing delimiter from closing it. */
  lemma PassesAlign(lines: seq<string>)
    ensures Aligned(NONE_YET, "", Steps(lines, 0, "")) <==> BlocksScanBack(Steps(lines, 0, ""))
  {
    StepsFaithful(lines, 0, "");
    AlignedIffScansBack(NONE_YET, "", Steps(lines, 0, ""));
  }

  // ---------------------------------------------------------------- line by line

  /** The scanner enters the block at its first line and leaves it at its last, and not in between. */
  ghost predicate Held(block: seq<string>)
    requires block != []
  {
    && (forall k :: 0 < k < |block| ==> AdvanceAll(REST, block[..k]) == Scan("", block[|block| - 1]))
    && Neutral(block)
  }

  lemma {:induction false} QuietBodyScans(body: seq<string>, end: string)
    requires end != "" && QuietLines(body, end)
    ensures AdvanceAll(Scan("", end), body) == Scan("", end)
    ensures forall k :: 0 <= k < |body| ==> Classes(Scan("", end), body)[k] == EquationLine
    decreases |body|
  {
    hide FenceMarker, TrimSpace;
    if body != [] {
      QuietBodyScans(body[1..], end);
    }
  }

  /** A line that leaves the scanner in the block is no fence and not its end. */
  lemma LineInBlock(end: string, line: string)
    requires end != ""
    ensures Advance(Scan("", end), line) == Scan("", end) <==> FenceMarker(TrimSpace(line)) == "" && TrimSpace(line) != end
  {
    hide TrimSpace, FenceMarker;
  }

  lemma StayedInBlock(c: Collected, step: Step, k: nat)
    requires step.Display? && step.source != [] && Closing(step) != ""
    requires Held(c.Core(step)) && k < |BodyLines(c, step)|
    ensures var line := BodyLines(c, step)[k]; FenceMarker(TrimSpace(line)) == "" && TrimSpace(line) != Closing(step)
  {
    hide BodyLines, Advance, Opening, Closing, AdvanceAll, Collected.Core, FenceMarker, TrimSpace, Neutral;
    var body := BodyLines(c, step);
    CoreIs(c, step);
    BlockPrefix(c, step, k);
    BlockPrefix(c, step, k + 1);
    assert body[..k + 1] == body[..k] + [body[k]];
    ScanAppend(Scan("", Closing(step)), body[..k], [body[k]]);
    ScanOne(Scan("", Closing(step)), body[k]);
    LineInBlock(Closing(step), body[k]);
  }

  lemma HeldIffContained(c: Collected, step: Step)
    requires step.Display? && step.source != [] && Closing(step) != ""
    ensures c.Core(step) != [] && (Held(c.Core(step)) <==> Contained(step))
  {
    hide BodyLines, Advance, Opening, Closing, AdvanceAll, Collected.Core, FenceMarker, TrimSpace, Split, Bare;
    var body, end := BodyLines(c, step), Closing(step);
    CoreIs(c, step);
    BodyReadAlike(c, step);
    Delimiters(step);
    if QuietLines(body, end) {
      forall k | 0 < k < |c.Core(step)| ensures AdvanceAll(REST, c.Core(step)[..k]) == Scan("", end) {
        BlockPrefix(c, step, k - 1);
        QuietBodyScans(body[..k - 1], end);
      }
      QuietBodyScans(body, end);
      assert Advance(Scan("", end), end) == REST by { EndCloses(end); }
      BlockScans(c, step);
    } else {
      var k :| 0 <= k < |body| && !(FenceMarker(TrimSpace(body[k])) == "" && TrimSpace(body[k]) != end);
      if Held(c.Core(step)) { StayedInBlock(c, step, k); }
    }
  }

  lemma EndCloses(end: string)
    requires end != "" && TrimSpace(end) == end && FenceMarker(end) == ""
    ensures Advance(Scan("", end), end) == REST
  {
  }

  /** At every line the replacing pass reads, it is in the state that the collecting pass means: outside blocks
      after each step, and within each block from its first line to its last. */
  ghost predicate AlignedThroughout(c: Collected, fence: string, steps: seq<Step>)
    requires Opened(steps)
    decreases |steps|
  {
    && AdvanceAll(REST, c.out) == AsScan(fence)
    && (steps != [] ==>
          && (steps[0].Display? ==> Held(c.Core(steps[0])))
          && AlignedThroughout(c.Then(steps[0]), AfterStep(fence, steps[0]), steps[1..]))
  }

  ghost predicate BlocksContained(steps: seq<Step>)
    requires Opened(steps)
  {
    forall k :: 0 <= k < |steps| ==> !steps[k].Unclosed? && (steps[k].Display? ==> Contained(steps[k]))
  }

  lemma {:induction false} ThroughoutIffContained(c: Collected, fence: string, steps: seq<Step>)
    requires Opened(steps) && AdvanceAll(REST, c.out) == AsScan(fence) && Faithful(steps, fence)
    ensures AlignedThroughout(c, fence, steps) <==> BlocksContained(steps)
    decreases |steps|
  {
    hide Neutral, TakenIn, AfterStep, Contained, Collected.Then, Collected.Core, AdvanceAll, AsScan, Held;
    if steps != [] {
      ThenScans(c, fence, steps[0]);
      if steps[0].Display? {
        HeldIffContained(c, steps[0]);
        if Held(c.Core(steps[0])) { HeldIsNeutral(c.Core(steps[0])); }
      }
      if AdvanceAll(REST, c.Then(steps[0]).out) == AsScan(AfterStep(fence, steps[0])) {
        ThroughoutIffContained(c.Then(steps[0]), AfterStep(fence, steps[0]), steps[1..]);
        assert steps == [steps[0]] + steps[1..];
      }
    }
  }

  /** For every source: both passes agree on every line iff every display block is closed and no line of its body,
      without its labels, is a code fence or the end of the block. */
  lemma PassesAlignThroughout(lines: seq<string>)
    ensures AlignedThroughout(NONE_YET, "", Steps(lines, 0, "")) <==> BlocksContained(Steps(lines, 0, ""))
  {
    StepsFaithful(lines, 0, "");
    ThroughoutIffContained(NONE_YET, "", Steps(lines, 0, ""));
  }

  /** Agreeing on every line is more than agreeing after every step. */
  lemma ContainedScansBack(steps: seq<Step>)
    requires Opened(steps) && BlocksContained(steps)
    ensures BlocksScanBack(steps)
  {
    hide Contained, ScansBack;
    forall k | 0 <= k < |steps| && steps[k].Display? ensures ScansBack(steps[k]) {
      HeldIffContained(NONE_YET, steps[k]);
      BlockScans(NONE_YET, steps[k]);
    }
  }

  /** For a block without labels the condition is that its body holds no code fence. */
  lemma UnlabelledContained(step: Step, fence: string)
    requires step.Display? && TakenIn(step, fence) && OneLineEach(step.source) && LABEL.First(step.body, 0).None?
    ensures Contained(step) <==> forall k :: 0 <= k < |Interior(step.source)| ==> FenceMarker(TrimSpace(Interior(step.source)[k])) == ""
  {
    hide FenceMarker, TrimSpace, Opening, Closing;
    var lines := Interior(step.source);
    if lines == [] {
      assert Split("") == [""] by { SplitOneLine(""); }
      EmptyLineQuiet(step);
    } else {
      SplitJoin(lines);
    }
  }

  lemma EmptyLineQuiet(step: Step)
    requires step.Display? && step.source != [] && Closing(step) != ""
    ensures QuietLines([""], Closing(step))
  {
  }

  // ---------------------------------------------------------------- closed blocks on which the passes disagree

  lemma DollarLines()
    ensures TrimSpace("$$") == "$$" && FenceMarker("$$") == "" && EquationEnd("$$") == "$$"
    ensures TrimSpace("a") == "a" && FenceMarker("a") == "" && EquationEnd("a") == ""
    ensures TrimSpace("b") == "b" && FenceMarker("b") == "" && EquationEnd("b") == ""
  {
    assert Trimmed("$$") && Trimmed("a") && Trimmed("b");
  }

  lemma OneBlock(lines: seq<string>)
    requires |lines| >= 2 && lines[0] == "$$" && FindLine(lines, 1, "$$") == Some(|lines| - 1)
    ensures Steps(lines, 0, "") == [Display(Join(Interior(lines)), lines)]
  {
    hide TrimSpace, FenceMarker, Join, FindLine;
    DollarLines();
    var step := Display(Join(Interior(lines)), lines);
    assert lines[0..|lines|] == lines;
    assert NextStep(lines, 0, "") == (step, |lines|);
    assert Steps(lines, |lines|, AfterStep("", step)) == [];
  }

  /** A code fence in the body: the collecting pass skips it, the replacing pass does not see the block end. */
  lemma FenceInBlockDiverges()
    ensures var lines := ["$$", "```", "$$"];
            Steps(lines, 0, "") == [Display("```", lines)] && !Aligned(NONE_YET, "", Steps(lines, 0, ""))
  {
    hide TrimSpace, FenceMarker, Steps, Bare;
    var lines := ["$$", "```", "$$"];
    DollarLines();
    BackquotesFence();
    assert FindLine(lines, 1, "$$") == FindLine(lines, 2, "$$") == Some(2);
    assert Interior(lines) == ["```"];
    OneBlock(lines);
    var step := Display("```", lines);
    assert Bare("```") == "```" by { NoLabel("```"); }
    SplitOneLine("```");
    var fenced := Scan("```", "$$");
    assert Advance(Scan("", "$$"), "```") == fenced && Advance(fenced, "$$") == fenced;
    ScanOne(Scan("", "$$"), "```");
    assert Steps(lines, 0, "")[0] == step && !ScansBack(step);
    PassesAlign(lines);
  }

  lemma BackquotesFence()
    ensures TrimSpace("```") == "```" && FenceMarker("```") == "```"
  {
    assert Trimmed("```");
    assert RunLength("```"[1..], '`') == 2 by { assert RunLength("```"[1..][1..], '`') == 1; }
    assert "```"[..3] == "```";
  }

  lemma NoLabel(s: string)
    requires '\\' !in s
    ensures Bare(s) == s
  {
    forall k | 0 <= k < |s| ensures !At(s, k, LABEL.head) {
      StartsWithHead(s, k, LABEL.head);
    }
    NoMatch(LABEL, s, 0);
  }

  const LABEL_BLOCK := ["$$", "a", "\\label{x}$$", "b", "$$"]
  const LABEL_BODY := "a\n\\label{x}$$\nb"

  lemma LabelBlockEnds()
    ensures FindLine(LABEL_BLOCK, 1, "$$") == Some(4)
  {
    hide TrimSpace;
    DollarLines();
    LabelLineTrimmed();
    var lines := LABEL_BLOCK;
    assert FindLine(lines, 4, "$$") == Some(4);
    assert FindLine(lines, 3, "$$") == Some(4);
    assert FindLine(lines, 2, "$$") == Some(4);
  }

  lemma LabelLineTrimmed()
    ensures TrimSpace("\\label{x}$$") == "\\label{x}$$"
  {
    assert Trimmed("\\label{x}$$");
  }

  lemma LabelBlockSteps()
    ensures Steps(LABEL_BLOCK, 0, "") == [Display(LABEL_BODY, LABEL_BLOCK)]
  {
    hide TrimSpace, FenceMarker, Steps, FindLine, Join;
    LabelBlockEnds();
    assert Interior(LABEL_BLOCK) == ["a", "\\label{x}$$", "b"];
    JoinThree("a", "\\label{x}$$", "b");
    assert "a" + "\n" + ("\\label{x}$$" + "\n" + "b") == LABEL_BODY;
    OneBlock(LABEL_BLOCK);
  }

  lemma DollarsScan()
    ensures Advance(AdvanceAll(Scan("", "$$"), ["a", "$$", "b"]), "$$") == Scan("", "$$")
  {
    hide TrimSpace, FenceMarker;
    DollarLines();
    var block := Scan("", "$$");
    assert ["a", "$$", "b"] == ["a"] + ["$$"] + ["b"];
    ScanAppend(block, ["a"] + ["$$"], ["b"]);
    ScanAppend(block, ["a"], ["$$"]);
    ScanOne(block, "a");
    ScanOne(block, "$$");
    ScanOne(REST, "b");
    assert Advance(REST, "b") == REST && Advance(REST, "$$") == block;
  }

  /** A label beside a delimiter: taking the label out leaves the end of the block inside it. */
  lemma LabelInBlockDiverges()
    ensures Steps(LABEL_BLOCK, 0, "") == [Display(LABEL_BODY, LABEL_BLOCK)]
    ensures !Aligned(NONE_YET, "", Steps(LABEL_BLOCK, 0, ""))
  {
    hide TrimSpace, FenceMarker, Steps, Bare, Split, AdvanceAll, Advance;
    LabelBlockSteps();
    LabelTakenOut();
    SplitThree();
    DollarsScan();
    DollarLines();
    var step := Display(LABEL_BODY, LABEL_BLOCK);
    assert Closing(step) == "$$";
    assert Steps(LABEL_BLOCK, 0, "")[0] == step && !ScansBack(step);
    PassesAlign(LABEL_BLOCK);
  }

  lemma JoinThree(a: string, b: string, c: string)
    ensures Join([a, b, c]) == a + "\n" + (b + "\n" + c)
  {
    assert [a, b, c][1..] == [b, c] && [b, c][1..] == [c];
    assert Join([b, c]) == b + "\n" + c;
  }

  lemma SplitThree()
    ensures Split("a\n$$\nb") == ["a", "$$", "b"]
  {
    hide Split;
    assert "a\n$$\nb" == "a" + "\n" + ("$$" + "\n" + "b");
    SplitFirstLine("a", "$$" + "\n" + "b");
    SplitFirstLine("$$", "b");
    SplitOneLine("b");
  }

  lemma LabelGone(s: string)
    requires s == LABEL_BODY
    ensures forall k :: 11 <= k < |s| ==> !At(s, k, LABEL.head)
  {
  }

  lemma LabelTakenOut()
    ensures Bare(LABEL_BODY) == "a\n$$\nb"
  {
    var s := LABEL_BODY;
    var drop := (_: string, _: string) => "";
    assert Find(s, 9, '}') == Find(s, 10, '}') == Some(10);
    assert s[2..9] == LABEL.head;
    assert LABEL.MatchAt(s, 2) == Some(Match("x", 11)) by { assert s[9..10] == "x"; }
    assert LABEL.MatchAt(s, 0).None? && LABEL.MatchAt(s, 1).None?;
    assert LABEL.First(s, 0) == LABEL.First(s, 1) == LABEL.First(s, 2) == Some("x");
    assert s[11..] == "$$\nb";
    NoMatchKeeps(LABEL, s, 11, drop) by { LabelGone(s); }
    assert LABEL.ReplaceFrom(s, 2, drop) == "" + LABEL.ReplaceFrom(s, 11, drop);
    assert LABEL.ReplaceFrom(s, 0, drop) == "a" + ("\n" + LABEL.ReplaceFrom(s, 2, drop));
  }

  // ---------------------------------------------------------------- protected text

  /** The class the collecting pass means a line it writes to have: a block is equation from end to end. */
  function StepClasses(c: Collected, step: Step): seq<LineClass>
    requires step.Display? ==> step.source != []
  {
    match step
    case Copied(_, class_) => [class_]
    case Unclosed(_) => [TextLine]
    case Display(body, _) =>
      seq(|c.Heading(NumberBody(body, Untagged(c.equations)).0.key)|, _ => TextLine)
      + seq(|c.Core(step)|, _ => EquationLine)
  }

  function CollectedClasses(c: Collected, steps: seq<Step>): seq<LineClass>
    requires Opened(steps)
    decreases |steps|
  {
    if steps == [] then [] else StepClasses(c, steps[0]) + CollectedClasses(c.Then(steps[0]), steps[1..])
  }

  lemma ContainedIsEquation(c: Collected, step: Step)
    requires step.Display? && step.source != [] && Closing(step) != "" && Contained(step)
    ensures Classes(REST, c.Core(step)) == seq(|c.Core(step)|, _ => EquationLine)
  {
    hide BodyLines, Advance, Opening, Closing, AdvanceAll, Collected.Core, FenceMarker, TrimSpace, Split, Bare, Classify, Classes;
    var opening, body, closing := [Opening(step)], BodyLines(c, step), [Closing(step)];
    var inside := Scan("", Closing(step));
    CoreIs(c, step);
    BodyReadAlike(c, step);
    Delimiters(step);
    QuietBodyScans(body, Closing(step));
    ScanAppend(REST, opening + body, closing);
    ScanAppend(REST, opening, body);
    ScanOne(REST, Opening(step));
    DelimitersAreEquation(step);
  }

  lemma DelimitersAreEquation(step: Step)
    requires step.Display? && step.source != [] && Closing(step) != ""
    ensures Classes(REST, [Opening(step)]) == [EquationLine]
    ensures Classes(Scan("", Closing(step)), [Closing(step)]) == [EquationLine]
  {
    Delimiters(step);
    assert FenceMarker(Opening(step)) == "" && TrimSpace(Opening(step)) == Opening(step);
  }

  lemma ThenClasses(c: Collected, fence: string, step: Step)
    requires AdvanceAll(REST, c.out) == AsScan(fence) && TakenIn(step, fence) && !step.Unclosed?
    requires step.Display? ==> Contained(step)
    ensures Classes(REST, c.Then(step).out) == Classes(REST, c.out) + StepClasses(c, step)
  {
    hide NumberBody, AnchorToken, FenceMarker, ClosesFence, Contained, Collected.Core, Collected.Heading;
    match step {
      case Copied(line, class_) =>
        ScanAppend(REST, c.out, [line]);
        assert Classes(AsScan(fence), [line]) == [class_];
      case Display(body, _) =>
        var key := NumberBody(body, Untagged(c.equations)).0.key;
        HeadingRests(c, key);
        ContainedIsEquation(c, step);
        ScanAppend(REST, c.out, c.Written(step));
        ScanAppend(REST, c.Heading(key), c.Core(step));
    }
  }

  /** The replacing pass gives every line the class the collecting pass means it to have. */
  lemma {:induction false} ClassesAgree(c: Collected, fence: string, steps: seq<Step>)
    requires Opened(steps) && AdvanceAll(REST, c.out) == AsScan(fence) && Faithful(steps, fence) && BlocksContained(steps)
    ensures Classes(REST, Emit(c, steps).out) == Classes(REST, c.out) + CollectedClasses(c, steps)
    decreases |steps|
  {
    hide Contained, TakenIn, AfterStep, StepClasses, Collected.Then, Collected.Written, AsScan, Classes, AdvanceAll, Neutral, Held;
    if steps == [] {
      assert Classes(REST, c.out) + [] == Classes(REST, c.out);
    } else {
      assert steps == [steps[0]] + steps[1..];
      if steps[0].Display? { HeldIffContained(c, steps[0]); HeldIsNeutral(c.Core(steps[0])); }
      ThenScans(c, fence, steps[0]);
      ThenClasses(c, fence, steps[0]);
      ClassesAgree(c.Then(steps[0]), AfterStep(fence, steps[0]), steps[1..]);
      var before, own, rest := Classes(REST, c.out), StepClasses(c, steps[0]), CollectedClasses(c.Then(steps[0]), steps[1..]);
      assert (before + own) + rest == before + (own + rest);
    }
  }

  lemma HeldIsNeutral(block: seq<string>)
    requires block != [] && Held(block)
    ensures Neutral(block)
  {
  }

  /** What a step writes for good: a line of code as it is in the source, or a block with its new body. */
  function StepKept(c: Collected, step: Step, class_: LineClass): seq<string>
    requires step.Display? ==> step.source != []
  {
    match step
    case Copied(line, own) => if own == class_ then [line] else []
    case Unclosed(_) => []
    case Display(_, _) => if class_ == EquationLine then c.Core(step) else []
  }

  function Kept(c: Collected, steps: seq<Step>, class_: LineClass): seq<string>
    requires Opened(steps)
    decreases |steps|
  {
    if steps == [] then [] else StepKept(c, steps[0], class_) + Kept(c.Then(steps[0]), steps[1..], class_)
  }

  lemma ThenKeeps(c: Collected, step: Step, class_: LineClass)
    requires (step.Display? ==> step.source != []) && class_ != TextLine
    ensures |StepClasses(c, step)| == |c.Written(step)|
    ensures Pick(c.Written(step), StepClasses(c, step), class_) == StepKept(c, step, class_)
  {
    hide NumberBody, Collected.Core, Collected.Heading;
    match step {
      case Copied(line, own) => PickOther([line], own, class_); assert seq(1, _ => own) == [own];
      case Unclosed(line) => PickOther([line], TextLine, class_); assert seq(1, _ => TextLine) == [TextLine];
      case Display(body, _) =>
        var heading, core := c.Heading(NumberBody(body, Untagged(c.equations)).0.key), c.Core(step);
        PickOther(heading, TextLine, class_);
        PickOther(core, EquationLine, class_);
        PickAppend(heading, core, seq(|heading|, _ => TextLine), seq(|core|, _ => EquationLine), class_);
    }
  }

  lemma {:induction false} CollectedKeeps(c: Collected, classes: seq<LineClass>, steps: seq<Step>, class_: LineClass)
    requires Opened(steps) && |classes| == |c.out| && class_ != TextLine
    ensures |classes + CollectedClasses(c, steps)| == |Emit(c, steps).out|
    ensures Pick(Emit(c, steps).out, classes + CollectedClasses(c, steps), class_)
         == Pick(c.out, classes, class_) + Kept(c, steps, class_)
    decreases |steps|
  {
    hide StepClasses, StepKept, Pick, Collected.Written, NumberBody;
    if steps == [] {
      assert classes + [] == classes;
    } else {
      var step := steps[0];
      var next := c.Then(step);
      ThenKeeps(c, step, class_);
      PickAppend(c.out, c.Written(step), classes, StepClasses(c, step), class_);
      CollectedKeeps(next, classes + StepClasses(c, step), steps[1..], class_);
      assert classes + (StepClasses(c, step) + CollectedClasses(next, steps[1..]))
          == classes + StepClasses(c, step) + CollectedClasses(next, steps[1..]);
    }
  }

  /** Whatever text is rewritten to, the code of the source and the numbered blocks stand in the result, and the
      collected classes are those of its lines. */
  lemma ProtectedTextUnchanged(lines: seq<string>, rewrite: string -> string, class_: LineClass)
    requires BlocksContained(Steps(lines, 0, "")) && class_ != TextLine
    ensures var steps, prepared := Steps(lines, 0, ""), Collect(lines).out;
            && Classes(REST, prepared) == CollectedClasses(NONE_YET, steps)
            && Pick(RewriteText(prepared, REST, rewrite), Classes(REST, prepared), class_) == Kept(NONE_YET, steps, class_)
  {
    hide Steps, BlocksContained, CollectedClasses, Kept, Emit, Pick;
    var steps := Steps(lines, 0, "");
    StepsFaithful(lines, 0, "");
    ClassesAgree(NONE_YET, "", steps);
    CollectedKeeps(NONE_YET, [], steps, class_);
    assert [] + CollectedClasses(NONE_YET, steps) == CollectedClasses(NONE_YET, steps);
    assert Pick([], [], class_) == [] by { PickOther([], TextLine, class_); assert seq(0, _ => TextLine) == []; }
    assert [] + Kept(NONE_YET, steps, class_) == Kept(NONE_YET, steps, class_);
    RewriteKeeps(Collect(lines).out, rewrite, class_);
  }

  // ---------------------------------------------------------------- code in the source and in the result

  /** No block holds a code fence in the source either, not even inside a label. */
  ghost predicate NoFenceInBlocks(steps: seq<Step>) {
    forall k :: 0 <= k < |steps| && steps[k].Display? && |steps[k].source| >= 2 ==> NoFence(Interior(steps[k].source))
  }

  predicate NoFence(lines: seq<string>) {
    forall k :: 0 <= k < |lines| ==> FenceMarker(TrimSpace(lines[k])) == ""
  }

  lemma SourceBlockScans(step: Step, fence: string)
    requires step.Display? && TakenIn(step, fence) && NoFence(Interior(step.source))
    ensures AdvanceAll(REST, step.source) == REST && Fenced(step.source) == []
  {
    hide FenceMarker, TrimSpace, Advance, AdvanceAll, Classes, Classify, Pick, Join, Opening, Closing;
    var source, end := step.source, Closing(step);
    var first, body, last := [source[0]], Interior(source), [source[|source| - 1]];
    assert source == first + body + last;
    ScanAppend(REST, first + body, last);
    ScanAppend(REST, first, body);
    ScanOne(REST, source[0]);
    ScanOne(Scan("", end), source[|source| - 1]);
    SourceDelimiters(step, fence);
    QuietBodyScans(body, end);
    var n := |source|;
    assert Classes(REST, source) == seq(n, _ => EquationLine);
    PickOther(source, EquationLine, FenceLine);
  }

  lemma SourceDelimiters(step: Step, fence: string)
    requires step.Display? && TakenIn(step, fence)
    ensures Advance(REST, step.source[0]) == Scan("", Closing(step))
    ensures Advance(Scan("", Closing(step)), step.source[|step.source| - 1]) == REST
    ensures Classes(REST, [step.source[0]]) == [EquationLine]
    ensures Classes(Scan("", Closing(step)), [step.source[|step.source| - 1]]) == [EquationLine]
  {
    hide Join;
    Delimiters(step);
    assert FenceMarker(Opening(step)) == "";
  }

  lemma CopiedScans(step: Step, fence: string)
    requires step.Copied? && TakenIn(step, fence)
    ensures AdvanceAll(AsScan(fence), [step.line]) == AsScan(AfterStep(fence, step))
    ensures Classes(AsScan(fence), [step.line]) == [step.class_]
  {
    hide TrimSpace;
    ScanOne(AsScan(fence), step.line);
  }

  /** The steps find the code that the scanner of the other passes finds in the source. */
  lemma {:induction false} SourceFences(steps: seq<Step>, fence: string, c: Collected)
    requires Opened(steps) && Faithful(steps, fence) && BlocksContained(steps) && NoFenceInBlocks(steps)
    ensures Pick(SourceLines(steps), Classes(AsScan(fence), SourceLines(steps)), FenceLine) == Kept(c, steps, FenceLine)
    decreases |steps|
  {
    hide TakenIn, AfterStep, Contained, NoFence, Collected.Then, AdvanceAll, Classes, Pick;
    if steps == [] {
      assert Classes(AsScan(fence), []) == [] && seq(0, _ => TextLine) == [];
      PickOther([], TextLine, FenceLine);
    } else {
      assert steps == [steps[0]] + steps[1..];
      var own, rest := StepSource(steps[0]), SourceLines(steps[1..]);
      SourceFences(steps[1..], AfterStep(fence, steps[0]), c.Then(steps[0]));
      BlocksAreLong(steps[0], fence);
      OwnFences(steps[0], fence, c);
      ScanAppend(AsScan(fence), own, rest);
      PickAppend(own, rest, Classes(AsScan(fence), own), Classes(AsScan(AfterStep(fence, steps[0])), rest), FenceLine);
    }
  }

  lemma BlocksAreLong(step: Step, fence: string)
    requires TakenIn(step, fence)
    ensures step.Display? ==> |step.source| >= 2
  {
    hide Join;
  }

  lemma OwnFences(step: Step, fence: string, c: Collected)
    requires TakenIn(step, fence) && !step.Unclosed?
    requires step.Display? ==> NoFence(Interior(step.source))
    ensures AdvanceAll(AsScan(fence), StepSource(step)) == AsScan(AfterStep(fence, step))
    ensures Pick(StepSource(step), Classes(AsScan(fence), StepSource(step)), FenceLine) == StepKept(c, step, FenceLine)
  {
    hide AdvanceAll, Classes, Pick, Collected.Core, Classify, Join, NoFence;
    match step {
      case Copied(line, own) =>
        CopiedScans(step, fence);
        PickOther([line], own, FenceLine);
        assert seq(1, _ => own) == [own];
      case Display(_, _) =>
        SourceBlockScans(step, fence);
    }
  }

  /** Fenced code comes out of both passes line for line as it stands in the source. */
  lemma FencedTextUnchanged(lines: seq<string>, rewrite: string -> string)
    requires BlocksContained(Steps(lines, 0, "")) && NoFenceInBlocks(Steps(lines, 0, ""))
    ensures Pick(RewriteText(Collect(lines).out, REST, rewrite), Classes(REST, Collect(lines).out), FenceLine) == Fenced(lines)
    ensures KeepsText(rewrite) ==> Fenced(RewriteText(Collect(lines).out, REST, rewrite)) == Fenced(lines)
  {
    hide Steps, BlocksContained, NoFenceInBlocks, Emit, Pick, Kept, KeepsText;
    StepsFaithful(lines, 0, "");
    StepsCoverSource(lines, 0, "");
    assert lines[0..] == lines;
    SourceFences(Steps(lines, 0, ""), "", NONE_YET);
    ProtectedTextUnchanged(lines, rewrite, FenceLine);
    if KeepsText(rewrite) { RewriteKeepsClasses(Collect(lines).out, REST, rewrite); }
  }
}
