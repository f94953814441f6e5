/** A source that is not found to need math, although the passes make math of it: a reference to a figure, with a
    backslash before its own. */
module EscapedReference {
  import opened Text
  import opened Substitution
  import opened MarkdownLines
  import opened Patterns
  import opened LineScanner
  import opened Links
  import opened MathProtection
  import opened MathDetection
  import Figures
  import Equations
  import opened Rendering
  import opened RawDetection

  const IMAGE := "![](a)"
  const LABELLED := "\\label{a}"
  const LAST := "\\\\ref{a} \\]"
  const LINES := [Figures.BEGIN, IMAGE, LABELLED, Figures.END, LAST]
  const FIGURE := Figures.Figure("", "a", "", "a")
  const REWRITTEN := "\\[1](#fig-a) \\]"

  // ---------------------------------------------------------------- the source needs no math

  lemma {:induction false} NoBracketIsSafe(s: string, run: nat)
    requires '$' !in s && '[' !in s && '(' !in s
    ensures Safe(s, run)
    decreases |s|
  {
    if s != "" { NoBracketIsSafe(s[1..], if s[0] == '\\' then run + 1 else 0); }
  }

  lemma LettersOf()
    ensures forall k :: 0 <= k < |LINES| && k != 1 ==> '$' !in LINES[k] && '[' !in LINES[k] && '(' !in LINES[k]
    ensures '$' !in IMAGE && '\\' !in IMAGE
    ensures forall k :: 0 <= k < |LINES| ==> '\n' !in LINES[k] && '\r' !in LINES[k]
  {
  }

  lemma LinesAreSafe()
    ensures AllSafe(LINES)
  {
    hide Safe;
    LettersOf();
    forall k | 0 <= k < |LINES| ensures Safe(LINES[k], 0) {
      if k == 1 { PlainIsSafe(IMAGE); } else { NoBracketIsSafe(LINES[k], 0); }
    }
  }

  lemma {:induction false} JoinHasNoPart(lines: seq<string>, part: string)
    requires part != "" && '\n' !in part && forall k :: 0 <= k < |lines| ==> !Contains(lines[k], part)
    ensures !Contains(Join(lines), part)
  {
    hide Contains;
    if lines == [] {
      assert !Contains("", part) by { ShortHasNoPart("", part); }
    } else if |lines| > 1 {
      JoinHasNoPart(lines[1..], part);
      TwoLinesHaveNoPart(lines[0], Join(lines[1..]), part);
    }
  }

  lemma ShortHasNoPart(s: string, part: string)
    requires |s| < |part|
    ensures !Contains(s, part)
  {
  }

  lemma TwoLinesHaveNoPart(a: string, b: string, part: string)
    requires part != "" && '\n' !in part && !Contains(a, part) && !Contains(b, part)
    ensures !Contains(a + "\n" + b, part)
  {
    var s := a + "\n" + b;
    forall i | 0 <= i <= |s| ensures !(part <= s[i..]) {
      if i > |a| {
        assert s[i..] == b[i - |a| - 1..];
      } else if i + |part| <= |a| {
        assert s[i..][..|part|] == a[i..][..|part|];
        assert !(part <= a[i..]);
      } else {
        assert s[i..][|a| - i] == '\n';
      }
    }
  }

  const EQUATION := "\\begin{equation}"
  const ALIGN := "\\begin{align}"

  lemma NoEnvironment()
    ensures forall k :: 0 <= k < |LINES| ==> !Contains(LINES[k], EQUATION) && !Contains(LINES[k], ALIGN) && !Contains(LINES[k], "$$")
  {
    hide Contains;
    LettersOf();
    forall k | 0 <= k < |LINES| ensures !Contains(LINES[k], EQUATION) && !Contains(LINES[k], ALIGN) && !Contains(LINES[k], "$$") {
      assert |LINES[k]| < |EQUATION|;
      ShortHasNoPart(LINES[k], EQUATION);
      if k == 0 { BeginIsNoAlign(); } else { ShortHasNoPart(LINES[k], ALIGN); }
      NoDollarPart(LINES[k]);
    }
  }

  lemma BeginIsNoAlign()
    ensures !Contains(Figures.BEGIN, ALIGN)
  {
    var s := Figures.BEGIN;
    assert s[7] == 'f' && ALIGN[7] == 'a' && s[1] == 'b' && ALIGN[0] == '\\';
    assert s[0..][7] == 'f' && s[1..][0] == 'b';
  }

  lemma NoDollarPart(s: string)
    requires '$' !in s
    ensures !Contains(s, "$$")
  {
    forall i | 0 <= i <= |s| ensures !("$$" <= s[i..]) {
      assert i < |s| ==> s[i..][0] == s[i];
    }
  }

  lemma SourceNeedsNoMath()
    ensures !NeedsMath(Join(LINES))
  {
    hide Safe, Contains, HasUnescapedDollar;
    LinesAreSafe();
    LinesSafe(LINES);
    SafeIffNoOpener(Join(LINES));
    NoEnvironment();
    JoinHasNoPart(LINES, EQUATION);
    JoinHasNoPart(LINES, ALIGN);
    JoinHasNoPart(LINES, "$$");
  }

  // ---------------------------------------------------------------- the figure

  lemma Trimmings()
    ensures TrimSpace(IMAGE) == IMAGE && TrimSpace(LABELLED) == LABELLED && TrimSpace(LAST) == LAST
    ensures TrimSpace("a") == "a" && TrimSpace("") == ""
  {
    assert Trimmed(IMAGE) && Trimmed(LABELLED) && Trimmed(LAST) && Trimmed("a");
  }

  const BODY := "![](a)\n\\label{a}"

  lemma BodyIsJoined()
    ensures Join(LINES[1..3]) == BODY
  {
    assert LINES[1..3] == [IMAGE, LABELLED];
    assert [IMAGE, LABELLED][1..] == [LABELLED];
    assert Join([LABELLED]) == LABELLED;
  }

  lemma ImageFound()
    ensures FirstImage(BODY, 0) == Some(Image("", "a", 6))
  {
    assert Find(BODY, 2, ']') == Some(2);
    assert Find(BODY, 4, ')') == Some(5) by { assert Find(BODY, 5, ')') == Some(5); }
    assert BODY[0..2] == "![" && BODY[3..4] == "(" && BODY[2..2] == "" && BODY[4..5] == "a";
    assert ImageAt(BODY, 0) == Some(Image("", "a", 6));
  }

  lemma LabelFound()
    ensures LABEL.First(BODY, 0) == Some("a") && CAPTION.First(BODY, 0) == None
  {
    forall k | 0 <= k < |BODY| ensures !At(BODY, k, CAPTION.head) && (k < 7 ==> !At(BODY, k, LABEL.head)) {
      StartsWithHead(BODY, k, CAPTION.head);
      StartsWithHead(BODY, k, LABEL.head);
    }
    assert BODY[7..14] == LABEL.head;
    assert Find(BODY, 14, '}') == Some(15) by { assert Find(BODY, 15, '}') == Some(15); }
    assert BODY[14..15] == "a";
    assert LABEL.MatchAt(BODY, 7) == Some(Match("a", 16));
    FirstMatch(LABEL, BODY, 0, 7);
    NoMatch(CAPTION, BODY, 0);
  }

  lemma BodyParses()
    ensures Figures.ParseFigureBody(BODY) == Some(FIGURE)
  {
    hide TrimSpace;
    Trimmings();
    ImageFound();
    LabelFound();
    assert Find("a", 0, ' ') == None by { assert Find("a", 1, ' ') == None; }
    assert Figures.ImageDestination("a") == "a";
  }

  lemma FirstStep()
    ensures Figures.NextStep(LINES, 0, REST) == (Figures.Numbered(FIGURE, LINES[0..4]), 4)
  {
    hide TrimSpace, FenceMarker, Join, Figures.ParseFigureBody, Classify;
    Trimmings();
    Figures.DelimitersAreText();
    assert FindLine(LINES, 3, Figures.END) == Some(3);
    assert IMAGE != Figures.END && LABELLED != Figures.END by { assert |IMAGE| < |Figures.END| && |LABELLED| < |Figures.END|; }
    assert FindLine(LINES, 1, Figures.END) == FindLine(LINES, 2, Figures.END) == FindLine(LINES, 3, Figures.END);
    BodyIsJoined();
    BodyParses();
  }

  lemma LastIsText()
    ensures Classify(REST, LAST) == TextLine && Advance(REST, LAST) == REST
    ensures FenceMarker(LAST) == "" && EquationEnd(LAST) == ""
  {
    Trimmings();
    assert LAST[0] == '\\' && |LAST| > 2;
  }

  lemma SecondStep()
    ensures Figures.NextStep(LINES, 4, REST) == (Figures.Copied(LAST, TextLine), 5)
  {
    hide TrimSpace, FenceMarker, Classify;
    Trimmings();
    LastIsText();
    assert LAST != Figures.BEGIN by { assert |LAST| < |Figures.BEGIN|; }
    assert Figures.ParseStandaloneLine(LAST) == None by { StartsWithHead(LAST, 0, "!["); }
  }

  lemma FiguresCollected()
    ensures Figures.Collect(LINES) == Figures.Collected([Figures.FigureToken(0), "", LAST], [FIGURE])
  {
    hide Figures.NextStep, Classify, Advance;
    FirstStep();
    SecondStep();
    LastIsText();
    var first, second := Figures.Numbered(FIGURE, LINES[0..4]), Figures.Copied(LAST, TextLine);
    Figures.EmitNextStep(Figures.NONE_YET, LINES, 0, REST);
    var c := Figures.NONE_YET.Then(first);
    assert c == Figures.Collected([Figures.FigureToken(0), ""], [FIGURE]);
    Figures.EmitNextStep(c, LINES, 4, REST);
    Figures.NoMoreSteps(c.Then(second), LINES, REST);
    assert c.Then(second).out == [Figures.FigureToken(0), "", LAST];
  }

  // ---------------------------------------------------------------- the reference

  const REFERENCES := map["a" := Reference("1", "fig-a")]

  lemma AnchorOfA()
    ensures PrefixedAnchor("fig-", "a") == "fig-a" && Decimal(1) == "1"
  {
    assert TrimSpace("a") == "a" by { assert Trimmed("a"); }
    assert Lower("a") == "a" by { assert Lower("a"[1..]) == ""; }
    assert AnchorText("a", false) == "a" by { assert AnchorText("a"[1..], false) == ""; }
    assert "fig-" + "a" == "fig-a";
  }

  lemma ReferencesAre()
    ensures Figures.References([FIGURE]) == REFERENCES
  {
    hide PrefixedAnchor, Decimal;
    AnchorOfA();
    assert [FIGURE][..0] == [];
    assert Figures.References([]) == map[];
  }

  lemma RewrittenReference()
    ensures Figures.ReferenceMarkdown("a", "\\ref{a}", REFERENCES, false) == "[1](#fig-a)"
  {
    hide EscapeLinkText, TrimSpace, Decimal, PrefixedAnchor;
    Trimmings();
    AnchorOfA();
    Figures.EscapedNumber(1, false);
    assert "" + "1" == "1";
    assert REFERENCES["a"] == Reference("1", "fig-a");
    assert "[" + "1" + "](#" + "fig-a" + ")" == "[1](#fig-a)";
  }

  lemma OnlyReference()
    ensures forall k :: 0 <= k < |LAST| ==> !At(LAST, k, FIGREF.head)
    ensures forall k :: 8 <= k < |LAST| ==> !At(LAST, k, REF.head)
    ensures REF.MatchAt(LAST, 0) == None && REF.MatchAt(LAST, 1) == Some(Match("a", 8))
    ensures LAST[1..8] == "\\ref{a}" && LAST[8..] == " \\]"
  {
    forall k | 0 <= k < |LAST| ensures !At(LAST, k, FIGREF.head) && (k != 1 ==> !At(LAST, k, REF.head)) {
      StartsWithHead(LAST, k, FIGREF.head);
      StartsWithHead(LAST, k, REF.head);
    }
    assert LAST[1..6] == REF.head;
    assert Find(LAST, 6, '}') == Some(7) by { assert Find(LAST, 7, '}') == Some(7); }
    assert LAST[6..7] == "a";
  }

  lemma LastRewritten()
    ensures Figures.RewriteLine(REFERENCES)(LAST) == REWRITTEN
  {
    hide Figures.Resolve, Command.MatchAt, Command.ReplaceFrom;
    var first, second := Figures.Resolve(REFERENCES, true), Figures.Resolve(REFERENCES, false);
    OnlyReference();
    NoMatchKeeps(FIGREF, LAST, 0, first);
    assert LAST[0..] == LAST;
    NoMatchKeeps(REF, LAST, 8, second);
    SecondResolves();
    ReplaceStep(REF, LAST, 1, second);
    ReplaceStep(REF, LAST, 0, second);
    assert "\\" + ("[1](#fig-a)" + " \\]") == REWRITTEN;
  }

  lemma SecondResolves()
    ensures Figures.Resolve(REFERENCES, false)("a", "\\ref{a}") == "[1](#fig-a)"
  {
    RewrittenReference();
  }

  lemma PlainLineStays(line: string)
    requires '\\' !in line
    ensures Figures.RewriteLine(REFERENCES)(line) == line
  {
    hide Figures.Resolve;
    forall k | 0 <= k < |line| ensures !At(line, k, FIGREF.head) && !At(line, k, REF.head) {
      StartsWithHead(line, k, FIGREF.head);
      StartsWithHead(line, k, REF.head);
    }
    NoMatchKeeps(FIGREF, line, 0, Figures.Resolve(REFERENCES, true));
    NoMatchKeeps(REF, line, 0, Figures.Resolve(REFERENCES, false));
    assert line[0..] == line;
  }

  const PREPARED := [Figures.FigureToken(0), "", REWRITTEN]

  lemma FiguresPrepared()
    ensures Figures.Prepared(LINES) == PREPARED
  {
    hide Figures.Collect, Figures.References, Figures.RewriteLine, Classify, Advance;
    FiguresCollected();
    ReferencesAre();
    assert "a" in REFERENCES;
    LastRewritten();
    var token, rewrite := Figures.FigureToken(0), Figures.RewriteLine(REFERENCES);
    assert '\\' !in token;
    PlainLineStays(token);
    PlainLineStays("");
    TokenIsText(token);
    LastIsText();
    var out := [token, "", LAST];
    assert out[1..] == ["", LAST] && out[1..][1..] == [LAST] && [LAST][1..] == [];
    assert RewriteText([LAST], REST, rewrite) == [REWRITTEN] + RewriteText([], REST, rewrite);
    assert RewriteText(["", LAST], REST, rewrite) == [""] + RewriteText([LAST], REST, rewrite);
    assert RewriteText(out, REST, rewrite) == [token] + RewriteText(["", LAST], REST, rewrite);
  }

  lemma TokenIsText(token: string)
    requires token == Figures.FigureToken(0)
    ensures Classify(REST, token) == TextLine && Advance(REST, token) == REST
    ensures Classify(REST, "") == TextLine && Advance(REST, "") == REST
    ensures EquationEnd(TrimSpace(token)) == "" && EquationEnd(TrimSpace("")) == ""
  {
    assert Trimmed(token) by { assert IsDigit(token[|token| - 1]); }
    assert token[0] == 'P' && |token| > 2;
  }

  // ---------------------------------------------------------------- the prepared text

  lemma NoReturns(text: string)
    requires '\r' !in text
    ensures UnixNewlines(text) == text
  {
    FreeOfChar(text, '\r');
    FreeOfLonger(text, "\r", "\r\n");
    ReplaceNothing(text, "\r\n", "\n");
    ReplaceNothing(text, "\r", "\n");
  }

  lemma {:induction false} JoinHasNoReturn(lines: seq<string>)
    requires forall k :: 0 <= k < |lines| ==> '\r' !in lines[k]
    ensures '\r' !in Join(lines)
  {
    if |lines| > 1 { JoinHasNoReturn(lines[1..]); }
  }

  lemma RewrittenIsText()
    ensures EquationEnd(TrimSpace(REWRITTEN)) == "" && '\n' !in REWRITTEN && '\r' !in REWRITTEN
    ensures '`' !in REWRITTEN && '~' !in REWRITTEN
  {
    assert Trimmed(REWRITTEN);
    assert |REWRITTEN| > 2;
  }

  lemma PreparedIs()
    ensures Prepare(Join(LINES)) == Join(PREPARED)
  {
    hide Split, Join, UnixNewlines, Figures.Prepared, Equations.Steps, Equations.Emit, TrimSpace, Figures.FigureToken, EquationEnd;
    LettersOf();
    JoinHasNoReturn(LINES);
    NoReturns(Join(LINES));
    SplitJoin(LINES);
    FiguresPrepared();
    RewrittenIsText();
    TokenLetters();
    JoinHasNoReturn(PREPARED);
    NoReturns(Join(PREPARED));
    SplitJoin(PREPARED);
    TokenIsText(Figures.FigureToken(0));
    NoEquations(Equations.NONE_YET, PREPARED, 0, "");
    assert [] + PREPARED[0..] == PREPARED;
    assert Equations.References([]) == map[];
  }

  lemma TokenLetters()
    ensures var token := Figures.FigureToken(0); '\n' !in token && '\r' !in token && '`' !in token && '~' !in token
  {
  }

  // ---------------------------------------------------------------- its math

  lemma {:induction false} NoFences(lines: seq<string>, chunk: string)
    requires forall k :: 0 <= k < |lines| ==> '`' !in lines[k] && '~' !in lines[k]
    ensures Blocks(lines, chunk, "") == Flush(chunk + Concat(lines))
    decreases |lines|
  {
    hide TrimSpace;
    if lines == [] {
      assert chunk + "" == chunk;
    } else {
      var cut := if HasSuffix(lines[0], "\n") then lines[0][..|lines[0]| - 1] else lines[0];
      TrimmedFrom(cut, '`');
      TrimmedFrom(cut, '~');
      assert FenceMarker(TrimmedLine(lines[0])) == "";
      NoFences(lines[1..], chunk + lines[0]);
      assert (chunk + lines[0]) + Concat(lines[1..]) == chunk + (lines[0] + Concat(lines[1..]));
    }
  }

  lemma {:induction false} PiecesHave(s: string, c: char)
    requires c !in s
    ensures forall k :: 0 <= k < |SplitAfter(s)| ==> c !in SplitAfter(s)[k]
    decreases |s|
  {
    match FirstNewline(s) {
      case None =>
      case Some(i) => PiecesHave(s[i + 1..], c);
    }
  }

  lemma {:induction false} SpansGrow(text: string, i: nat, done: Template)
    requires i <= |text| && done.Valid()
    ensures |ProtectFrom(text, i, done).spans| >= |done.spans|
    decreases |text| - i
  {
    hide SpanEnd;
    if i < |text| {
      SpanEnds(text, i);
      match SpanEnd(text, i)
      case Some(e) => SpansGrow(text, e, done.AddSpan(text[i..e]));
      case None => SpansGrow(text, i + 1, done.AddText([text[i]]));
    }
  }

  lemma {:induction false} SpanIsTaken(text: string, i: nat, p: nat, done: Template)
    requires i <= p < |text| && done.Valid() && SpanEnd(text, p).Some?
    ensures |ProtectFrom(text, i, done).spans| > |done.spans|
    decreases |text| - i
  {
    hide SpanEnd;
    SpanEnds(text, i);
    match SpanEnd(text, i)
    case Some(e) => SpansGrow(text, e, done.AddSpan(text[i..e]));
    case None => SpanIsTaken(text, i + 1, p, done.AddText([text[i]]));
  }

  lemma RewrittenOpens(head: string)
    ensures SpanEnd(head + REWRITTEN, |head|).Some?
  {
    var text, p := head + REWRITTEN, |head|;
    var last := p + |REWRITTEN| - 2;
    assert text[p] == '\\' && text[p + 1] == '[';
    assert At(text, p, "\\[") && !At(text, p, "$$");
    assert text[last] == '\\' && text[last + 1] == ']' && text[last - 1] == ' ';
    assert BackslashRun(text, last) == 0;
    assert Closer(text, last, "\\]");
    assert Opens(text, p) == Some(("\\[", "\\]"));
    assert last >= p + 2;
  }

  lemma PreparedHasMath()
    ensures ProtectDocument(Join(PREPARED)).spans != []
  {
    hide SpanEnd, ProtectFrom, Figures.FigureToken, Blocks, SplitAfter;
    TokenLetters();
    RewrittenIsText();
    var token := Figures.FigureToken(0);
    assert PREPARED[1..] == ["", REWRITTEN] && PREPARED[1..][1..] == [REWRITTEN];
    assert Join([REWRITTEN]) == REWRITTEN && Join(["", REWRITTEN]) == "" + "\n" + REWRITTEN;
    var head := token + "\n" + "\n";
    var text := head + REWRITTEN;
    assert Join(PREPARED) == text;
    assert '`' !in text && '~' !in text;
    PiecesHave(text, '`');
    PiecesHave(text, '~');
    NoFences(SplitAfter(text), "");
    ConcatSplit(text);
    assert "" + Concat(SplitAfter(text)) == text;
    RewrittenOpens(head);
    SpanIsTaken(text, 0, |head|, NOTHING);
    OneChunk(text);
  }

  lemma ConcatSplit(s: string)
    ensures Concat(SplitAfter(s)) == s
  {
  }

  lemma OneChunk(text: string)
    requires text != ""
    ensures ProtectBlocks(Flush(text), NOTHING) == ProtectFrom(text, 0, NOTHING)
  {
    assert [Chunk(text)][1..] == [];
  }

  /** The page of this source is shown without the math renderer, and has math in it. */
  lemma EscapedReferenceMissesMath()
    ensures ProtectDocument(Prepare(Join(LINES))).spans != [] && !NeedsMath(Join(LINES))
  {
    PreparedIs();
    PreparedHasMath();
    SourceNeedsNoMath();
  }
}
