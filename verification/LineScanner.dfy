/** The scanner that both reference passes run over the lines: it knows whether a line is inside a code
    fence or inside a display equation. A fence marker is looked at first, even inside an equation. */
module LineScanner {
  import opened Text
  import opened MarkdownLines

  /** The open fence and the awaited equation end; "" when there is none. */
  datatype Scan = Scan(fence: string, equation: string)

  const REST := Scan("", "")

  datatype LineClass = FenceLine | EquationLine | TextLine

  function Classify(s: Scan, line: string): LineClass {
    var trimmed := TrimSpace(line);
    if FenceMarker(trimmed) != "" || s.fence != "" then FenceLine
    else if s.equation != "" || EquationEnd(trimmed) != "" then EquationLine
    else TextLine
  }

  function Advance(s: Scan, line: string): Scan {
    var trimmed := TrimSpace(line);
    if FenceMarker(trimmed) != "" then s.(fence := NextFence(s.fence, trimmed))
    else if s.fence != "" then s
    else if s.equation != "" then if trimmed == s.equation then s.(equation := "") else s
    else s.(equation := EquationEnd(trimmed))
  }

  function AdvanceAll(s: Scan, lines: seq<string>): Scan
    decreases |lines|
  {
    if lines == [] then s else AdvanceAll(Advance(s, lines[0]), lines[1..])
  }

  function Classes(s: Scan, lines: seq<string>): (c: seq<LineClass>)
    ensures |c| == |lines|
    decreases |lines|
  {
    if lines == [] then [] else [Classify(s, lines[0])] + Classes(Advance(s, lines[0]), lines[1..])
  }

  lemma {:induction false} ScanAppend(s: Scan, a: seq<string>, b: seq<string>)
    ensures AdvanceAll(s, a + b) == AdvanceAll(AdvanceAll(s, a), b)
    ensures Classes(s, a + b) == Classes(s, a) + Classes(AdvanceAll(s, a), b)
    decreases |a|
  {
    hide Classify, Advance;
    if a == [] {
      assert a + b == b;
    } else {
      assert (a + b)[1..] == a[1..] + b;
      ScanAppend(Advance(s, a[0]), a[1..], b);
    }
  }

  /** A line the scanner does not react to. */
  predicate Unremarkable(line: string) {
    FenceMarker(TrimSpace(line)) == "" && EquationEnd(TrimSpace(line)) == ""
  }

  lemma {:induction false} RestsOn(lines: seq<string>)
    requires forall k :: 0 <= k < |lines| ==> Unremarkable(lines[k])
    ensures AdvanceAll(REST, lines) == REST
    ensures forall k :: 0 <= k < |lines| ==> Classes(REST, lines)[k] == TextLine
    decreases |lines|
  {
    hide FenceMarker, EquationEnd;
    if lines != [] {
      RestsOn(lines[1..]);
    }
  }

  /** Text at rest is exactly what neither fence nor equation claims. */
  lemma TextOnlyAtRest(s: Scan, line: string)
    ensures Classify(s, line) == TextLine ==> s == REST && Unremarkable(line) && Advance(s, line) == REST
  {
  }

  /** A block that, scanned from rest, leaves the scanner at rest. */
  predicate Neutral(block: seq<string>) {
    AdvanceAll(REST, block) == REST
  }

  /** The rewriting half of a reference pass: text lines are rewritten, all others stay. */
  function RewriteText(lines: seq<string>, s: Scan, rewrite: string -> string): (out: seq<string>)
    ensures |out| == |lines|
    decreases |lines|
  {
    if lines == [] then []
    else
      [if Classify(s, lines[0]) == TextLine then rewrite(lines[0]) else lines[0]]
      + RewriteText(lines[1..], Advance(s, lines[0]), rewrite)
  }

  lemma {:induction false} RewriteTextAt(lines: seq<string>, s: Scan, rewrite: string -> string, k: nat)
    requires k < |lines|
    ensures RewriteText(lines, s, rewrite)[k]
         == if Classes(s, lines)[k] == TextLine then rewrite(lines[k]) else lines[k]
    decreases |lines|
  {
    hide Classify, Advance;
    if k > 0 {
      RewriteTextAt(lines[1..], Advance(s, lines[0]), rewrite, k - 1);
    }
  }

  /** The lines of one class, in order. */
  function Pick(lines: seq<string>, classes: seq<LineClass>, class_: LineClass): seq<string>
    requires |lines| == |classes|
  {
    if lines == [] then []
    else (if classes[0] == class_ then [lines[0]] else []) + Pick(lines[1..], classes[1..], class_)
  }

  /** The lines of code fences, the fences themselves included. */
  function Fenced(lines: seq<string>): seq<string> {
    Pick(lines, Classes(REST, lines), FenceLine)
  }

  lemma {:induction false} PickAppend(
    a: seq<string>, b: seq<string>, ca: seq<LineClass>, cb: seq<LineClass>, class_: LineClass)
    requires |a| == |ca| && |b| == |cb|
    ensures Pick(a + b, ca + cb, class_) == Pick(a, ca, class_) + Pick(b, cb, class_)
  {
    if a == [] {
      assert a + b == b && ca + cb == cb;
    } else {
      assert (a + b)[1..] == a[1..] + b && (ca + cb)[1..] == ca[1..] + cb;
      PickAppend(a[1..], b, ca[1..], cb, class_);
    }
  }

  lemma {:induction false} PickAgrees(a: seq<string>, b: seq<string>, classes: seq<LineClass>, class_: LineClass)
    requires |a| == |b| == |classes|
    requires forall k :: 0 <= k < |a| && classes[k] == class_ ==> a[k] == b[k]
    ensures Pick(a, classes, class_) == Pick(b, classes, class_)
  {
    if a != [] {
      PickAgrees(a[1..], b[1..], classes[1..], class_);
    }
  }

  /** Rewriting touches no fenced line and no line of an equation. */
  lemma RewriteKeeps(lines: seq<string>, rewrite: string -> string, class_: LineClass)
    requires class_ != TextLine
    ensures Pick(RewriteText(lines, REST, rewrite), Classes(REST, lines), class_)
         == Pick(lines, Classes(REST, lines), class_)
  {
    var out := RewriteText(lines, REST, rewrite);
    forall k | 0 <= k < |lines| && Classes(REST, lines)[k] == class_ ensures out[k] == lines[k] {
      RewriteTextAt(lines, REST, rewrite, k);
    }
    PickAgrees(out, lines, Classes(REST, lines), class_);
  }

  lemma {:induction false} PickOther(lines: seq<string>, own: LineClass, class_: LineClass)
    ensures Pick(lines, seq(|lines|, _ => own), class_) == if own == class_ then lines else []
  {
    if lines != [] {
      PickOther(lines[1..], own, class_);
      assert seq(|lines|, _ => own)[1..] == seq(|lines| - 1, _ => own);
    }
  }

  /** A rewriting that makes nothing of a text line that the scanner would react to. */
  ghost predicate KeepsText(rewrite: string -> string) {
    forall line :: Unremarkable(line) ==> Unremarkable(rewrite(line))
  }

  /** After such a rewriting every line still has the class it had. */
  lemma {:induction false} RewriteKeepsClasses(lines: seq<string>, s: Scan, rewrite: string -> string)
    requires KeepsText(rewrite)
    ensures Classes(s, RewriteText(lines, s, rewrite)) == Classes(s, lines)
    decreases |lines|
  {
    hide Unremarkable;
    if lines != [] {
      RewriteKeepsClasses(lines[1..], Advance(s, lines[0]), rewrite);
      TextOnlyAtRest(s, lines[0]);
      UnremarkableIsText(rewrite(lines[0]));
      UnremarkableIsText(lines[0]);
    }
  }

  lemma UnremarkableIsText(line: string)
    ensures Unremarkable(line) ==> Classify(REST, line) == TextLine && Advance(REST, line) == REST
  {
  }

  lemma FencedKept(lines: seq<string>, rewrite: string -> string)
    requires KeepsText(rewrite)
    ensures Fenced(RewriteText(lines, REST, rewrite)) == Fenced(lines)
  {
    hide KeepsText;
    RewriteKeepsClasses(lines, REST, rewrite);
    RewriteKeeps(lines, rewrite, FenceLine);
  }

  /** The flags of the code, `inFence` and `inEquation` beside their texts, and one step over a line. */
  class LineState {
    var inFence: bool
    var fenceMarker: string
    var inEquation: bool
    var equationEnd: string

    predicate Valid()
      reads this
    {
      inFence == (fenceMarker != "") && inEquation == (equationEnd != "")
    }

    function State(): Scan
      reads this
    {
      Scan(fenceMarker, equationEnd)
    }

    constructor ()
      ensures Valid() && State() == REST
    {
      inFence, fenceMarker, inEquation, equationEnd := false, "", false, "";
    }

    method Step(line: string) returns (class_: LineClass)
      requires Valid()
      modifies this
      ensures Valid() && State() == Advance(old(State()), line) && class_ == Classify(old(State()), line)
    {
      var trimmed := TrimSpace(line);
      var marker := MarkdownFenceMarker(trimmed);
      if marker != "" {
        if inFence {
          var closes := ClosesMarkdownFence(trimmed, fenceMarker);
          if closes { inFence, fenceMarker := false, ""; }
        } else {
          inFence, fenceMarker := true, marker;
        }
        return FenceLine;
      }
      if inFence { return FenceLine; }
      if inEquation {
        if trimmed == equationEnd { inEquation, equationEnd := false, ""; }
        return EquationLine;
      }
      if EquationEnd(trimmed) != "" {
        inEquation, equationEnd := true, EquationEnd(trimmed);
        return EquationLine;
      }
      return TextLine;
    }
  }

  lemma RewriteStep(done: seq<string>, source: seq<string>, i: nat, s: Scan, rewrite: string -> string)
    requires i < |source|
    ensures var line := source[i];
            done + RewriteText(source[i..], s, rewrite)
            == done + [if Classify(s, line) == TextLine then rewrite(line) else line]
               + RewriteText(source[i + 1..], Advance(s, line), rewrite)
  {
    hide Classify, Advance;
    assert source[i..][0] == source[i] && source[i..][1..] == source[i + 1..];
    var first, rest := [if Classify(s, source[i]) == TextLine then rewrite(source[i]) else source[i]],
                       RewriteText(source[i + 1..], Advance(s, source[i]), rewrite);
    assert done + (first + rest) == done + first + rest;
  }

  lemma NothingToRewrite(done: seq<string>, s: Scan, rewrite: string -> string)
    ensures done + RewriteText([], s, rewrite) == done
  {
  }

  /** The loop of a reference pass, which updates the lines in place. */
  method RewriteLines(source: seq<string>, rewrite: string -> string) returns (lines: seq<string>)
    ensures lines == RewriteText(source, REST, rewrite)
  {
    hide Classify, Advance, RewriteText;
    lines := source;
    var state := new LineState();
    var i := 0;
    assert source[..0] == [] && source[0..] == source;
    ghost var all := RewriteText(source, REST, rewrite);
    assert [] + all == all;
    while i < |source|
      invariant i <= |source| == |lines| && lines[i..] == source[i..] && state.Valid()
      invariant all == lines[..i] + RewriteText(source[i..], state.State(), rewrite)
    {
      ghost var before := lines;
      var line := lines[i];
      assert line == lines[i..][0] == source[i..][0] == source[i];
      RewriteStep(lines[..i], source, i, state.State(), rewrite);
      var class_ := state.Step(line);
      if class_ == TextLine {
        lines := lines[i := rewrite(line)];
      }
      assert lines[..i + 1] == before[..i] + [lines[i]];
      assert lines[i + 1..] == before[i..][1..] == source[i..][1..] == source[i + 1..];
      i := i + 1;
    }
    assert source[i..] == [] && lines[..i] == lines;
    NothingToRewrite(lines, state.State(), rewrite);
  }
}
