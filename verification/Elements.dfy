/** The HTML of figures and of the anchors of equations, and what becomes of their tokens: up to ten come back right,
    beyond that the eleventh may not. */
module Elements {
  import opened Text
  import opened Substitution
  import opened MarkdownLines
  import opened Patterns
  import opened LineScanner
  import opened BackSubstitution
  import opened Entities
  import MathProtection
  import Figures
  import Equations
  import Links
  import LinkTexts

  // ---------------------------------------------------------------- rendering

  /** `template.HTMLEscapeString`: as `html.EscapeString`, and a zero becomes the replacement character. */
  function EscapeHtml(s: string): string {
    if s == "" then ""
    else (if s[0] == '\0' then "\U{FFFD}" else MathProtection.EscapeChar(s[0])) + EscapeHtml(s[1..])
  }

  const FIGURE_END := "</figcaption></figure>"

  function RenderFigureHTML(r: Figures.Rendered): string { "<figure" + FigureContent(r) + FIGURE_END }

  function FigureContent(r: Figures.Rendered): string {
    (if r.anchor == "" then "" else " id=\"" + EscapeHtml(r.anchor) + "\"") + " class=\"article-figure\">"
    + "<img src=\"" + EscapeHtml(r.figure.src) + "\" alt=\"" + EscapeHtml(r.figure.alt) + "\" loading=\"lazy\">"
    + "<figcaption>" + "<span class=\"figure-number\">" + "Figure " + Decimal(r.number) + ".</span>"
    + (if TrimSpace(r.figure.caption) == "" then "" else " " + EscapeHtml(r.figure.caption))
  }

  const SPAN_END := "\" class=\"equation-anchor\"></span>"

  function RenderAnchor(anchor: string): string { "<span id=\"" + anchor + SPAN_END }

  /** A zero cannot be shown; a replacement character stands for it. */
  function Visible(s: string): string {
    seq(|s|, i requires 0 <= i < |s| => if s[i] == '\0' then '\U{FFFD}' else s[i])
  }

  /** What is escaped is read as it was. */
  lemma {:induction false} EscapedHtmlReads(s: string)
    ensures Decode(EscapeHtml(s)) == Visible(s) && NoMarkup(EscapeHtml(s))
  {
    hide Decode, MathProtection.EscapeChar;
    if s == "" {
      MathProtection.NothingRead();
    } else {
      EscapedHtmlReads(s[1..]);
      var rest := EscapeHtml(s[1..]);
      if s[0] == '\0' {
        EntityFirst("\U{FFFD}", '\U{FFFD}', rest);
      } else {
        MathProtection.EscapedCharReads(s[0], rest);
      }
      assert Visible(s) == [Visible(s)[0]] + Visible(s[1..]);
    }
  }

  /** The attributes and the caption of a figure are read as what the figure says, and its number is its number. */
  lemma FigureReads(r: Figures.Rendered) returns (id: string, src: string, alt: string, number: string, caption: string)
    ensures RenderFigureHTML(r)
         == "<figure"
            + ((if r.anchor == "" then "" else " id=\"" + id + "\"") + " class=\"article-figure\">"
               + "<img src=\"" + src + "\" alt=\"" + alt + "\" loading=\"lazy\">"
               + "<figcaption>" + "<span class=\"figure-number\">" + "Figure " + number + ".</span>"
               + (if AllSpace(r.figure.caption) then "" else " " + caption))
            + "</figcaption></figure>"
    ensures Decode(id) == Visible(r.anchor) && Decode(src) == Visible(r.figure.src)
    ensures Decode(alt) == Visible(r.figure.alt) && Decode(caption) == Visible(r.figure.caption)
    ensures NoMarkup(id) && NoMarkup(src) && NoMarkup(alt) && NoMarkup(caption) && DecimalValue(number) == r.number
  {
    hide EscapeHtml, Decode, NoMarkup, Decimal, DecimalValue, TrimSpace, Visible;
    id, src, alt := EscapeHtml(r.anchor), EscapeHtml(r.figure.src), EscapeHtml(r.figure.alt);
    number, caption := Decimal(r.number), EscapeHtml(r.figure.caption);
    EscapedHtmlReads(r.anchor);
    EscapedHtmlReads(r.figure.src);
    EscapedHtmlReads(r.figure.alt);
    EscapedHtmlReads(r.figure.caption);
    DecimalRoundTrip(r.number);
    FigureParts(r, id, src, alt, number, caption);
  }

  lemma FigureParts(r: Figures.Rendered, id: string, src: string, alt: string, number: string, caption: string)
    requires id == EscapeHtml(r.anchor) && src == EscapeHtml(r.figure.src) && alt == EscapeHtml(r.figure.alt)
    requires number == Decimal(r.number) && caption == EscapeHtml(r.figure.caption)
    ensures RenderFigureHTML(r)
         == "<figure"
            + ((if r.anchor == "" then "" else " id=\"" + id + "\"") + " class=\"article-figure\">"
               + "<img src=\"" + src + "\" alt=\"" + alt + "\" loading=\"lazy\">"
               + "<figcaption>" + "<span class=\"figure-number\">" + "Figure " + number + ".</span>"
               + (if AllSpace(r.figure.caption) then "" else " " + caption))
            + "</figcaption></figure>"
  {
    hide EscapeHtml, Decimal, TrimSpace;
    BlankCaption(r.figure.caption);
  }

  lemma BlankCaption(caption: string)
    ensures TrimSpace(caption) == "" <==> AllSpace(caption)
  {
  }

  lemma {:induction false} AnchorCharsRead(s: string)
    requires forall i :: 0 <= i < |s| ==> Links.AnchorChar(s[i])
    ensures Decode(s) == s && NoMarkup(s)
  {
    if s == "" {
      MathProtection.NothingRead();
    } else {
      AnchorCharsRead(s[1..]);
      assert s == [s[0]] + s[1..];
      EntityFirst([s[0]], s[0], s[1..]);
    }
  }

  /** The element of an equation's anchor: its ID is the anchor, which needs no escaping. */
  lemma AnchorReads(equations: seq<Equations.Equation>, j: nat)
    requires j < |equations|
    ensures var anchor := Equations.Anchor(equations, j);
            && RenderAnchor(anchor) == "<span id=\"" + anchor + "\" class=\"equation-anchor\"></span>"
            && Decode(anchor) == anchor
            && NoMarkup(anchor)
  {
    hide Equations.Anchor, Decode, NoMarkup;
    LinkTexts.EquationAnchorChars(equations, j);
    AnchorCharsRead(Equations.Anchor(equations, j));
  }

  lemma Ends(start: string, tail: string)
    requires |start| >= 3 && start[0] == '<' && start[1] != '/' && start[1] != 'p'
    requires |tail| >= 3 && tail[|tail| - 1] == '>' && tail[|tail| - 2] != 'p'
    ensures Element(start + tail) && !(OPEN <= start + tail) && |start + tail| >= 3
  {
    var s := start + tail;
    assert s[|s| - 1] == '>' && s[|s| - 2] == tail[|tail| - 2];
    assert s[1] == start[1];
  }

  lemma FigureIsElement(r: Figures.Rendered)
    ensures Element(RenderFigureHTML(r)) && !(OPEN <= RenderFigureHTML(r)) && |RenderFigureHTML(r)| >= 3
  {
    hide FigureContent;
    var start := "<figure" + FigureContent(r);
    assert start[0] == '<' && start[1] == 'f';
    Ends(start, FIGURE_END);
  }

  lemma AnchorIsElement(anchor: string)
    ensures Element(RenderAnchor(anchor)) && !(OPEN <= RenderAnchor(anchor)) && |RenderAnchor(anchor)| >= 3
  {
    var start := "<span id=\"" + anchor;
    assert start[0] == '<' && start[1] == 's';
    Ends(start, SPAN_END);
  }

  // ---------------------------------------------------------------- figures

  const FIGURE_MARK := "POSTIZER_FIGURE_"

  /** The HTML of each figure, in the order of the tokens. */
  function FigureValues(figures: seq<Figures.Figure>): (vals: seq<string>)
    ensures |vals| == |figures|
    ensures forall k :: 0 <= k < |vals| ==> vals[k] == FigureValue(figures, k)
  {
    seq(|figures|, k requires 0 <= k < |figures| => FigureValue(figures, k))
  }

  function FigureValue(figures: seq<Figures.Figure>, k: nat): string
    requires k < |figures|
  {
    RenderFigureHTML(Figures.Rendered(figures[k], k + 1, Figures.Anchor(figures, k)))
  }

  /** Those are the entries of the map that the collecting pass makes. */
  lemma FigureTokens(figures: seq<Figures.Figure>)
    ensures var table, toks := Figures.FigureMap(figures), Tokens(FIGURE_MARK, |figures|);
            && (forall k :: 0 <= k < |figures| ==> toks[k] in table && RenderFigureHTML(table[toks[k]]) == FigureValues(figures)[k])
            && (forall t :: t in table ==> t in toks)
  {
    hide Decimal, RenderFigureHTML, Figures.FigureMap, Figures.Anchor;
    Figures.FigureMapNumbers(figures);
    var table, toks := Figures.FigureMap(figures), Tokens(FIGURE_MARK, |figures|);
    forall k | 0 <= k < |figures|
      ensures toks[k] in table && RenderFigureHTML(table[toks[k]]) == FigureValues(figures)[k]
    {
      assert toks[k] == Figures.FigureToken(k);
    }
    forall t | t in table ensures t in toks {
      var k :| 0 <= k < |figures| && t == Figures.FigureToken(k);
      assert toks[k] == t;
    }
  }

  /** With at most ten figures every clean page gets all of them back, whatever the order. */
  lemma FiguresComeBack(figures: seq<Figures.Figure>, lits: seq<string>, holes: seq<Hole>, order: seq<nat>)
    requires |figures| <= 10
    requires Fits(lits, holes, Tokens(FIGURE_MARK, |figures|), FigureValues(figures))
    requires Clean(lits, holes, FigureValues(figures), FIGURE_MARK) && IsOrder(order, |figures|)
    ensures RestoresIn(lits, holes, FigureValues(figures), FIGURE_MARK, |figures|, order)
  {
    MarksAreGood();
    RestoresUpToTen(lits, holes, FigureValues(figures), FIGURE_MARK, |figures|, order);
  }

  /** With more, every clean page on which the first figure from the eleventh on stands in a paragraph of its own
      loses that figure in some order. */
  lemma EleventhFigureIsLost(figures: seq<Figures.Figure>, lits: seq<string>, holes: seq<Hole>, j: nat) returns (order: seq<nat>)
    requires Fits(lits, holes, Tokens(FIGURE_MARK, |figures|), FigureValues(figures))
    requires Clean(lits, holes, FigureValues(figures), FIGURE_MARK)
    requires j < |holes| && holes[j].slot >= 10 && holes[j].alone && forall i :: 0 <= i < j ==> holes[i].slot < 10
    ensures IsOrder(order, |figures|) && !RestoresIn(lits, holes, FigureValues(figures), FIGURE_MARK, |figures|, order)
  {
    hide Clean, RestoresIn, RenderFigureHTML, Tells, Element, IsOrder, Figures.Anchor;
    MarksAreGood();
    var vals, k := FigureValues(figures), holes[j].slot;
    FigureIsElement(Figures.Rendered(figures[k], k + 1, Figures.Anchor(figures, k)));
    AloneTells(holes[j], vals);
    order := BeyondTenBreaks(lits, holes, vals, FIGURE_MARK, |figures|, j);
  }

  const ANCHOR_MARK := "POSTIZER_EQ_ANCHOR_"

  /** The same for the anchors of equations. */
  lemma EleventhAnchorIsLost(anchors: seq<string>, lits: seq<string>, holes: seq<Hole>, vals: seq<string>, j: nat) returns (order: seq<nat>)
    requires |vals| == |anchors| && forall k :: 0 <= k < |vals| ==> vals[k] == RenderAnchor(anchors[k])
    requires Fits(lits, holes, Tokens(ANCHOR_MARK, |vals|), vals) && Clean(lits, holes, vals, ANCHOR_MARK)
    requires j < |holes| && holes[j].slot >= 10 && holes[j].alone && forall i :: 0 <= i < j ==> holes[i].slot < 10
    ensures IsOrder(order, |vals|) && !RestoresIn(lits, holes, vals, ANCHOR_MARK, |vals|, order)
  {
    hide Clean, RestoresIn, RenderAnchor, Tells, Element, IsOrder;
    MarksAreGood();
    AnchorIsElement(anchors[holes[j].slot]);
    AloneTells(holes[j], vals);
    order := BeyondTenBreaks(lits, holes, vals, ANCHOR_MARK, |vals|, j);
  }

  // ---------------------------------------------------------------- eleven images

  const IMAGE := "![a](b)"
  const IMAGE_FIGURE := Figures.Figure("a", "b", "a", "")

  lemma ImageStep(lines: seq<string>, i: nat)
    requires i < |lines| && lines[i] == IMAGE
    ensures Figures.NextStep(lines, i, REST) == (Figures.Numbered(IMAGE_FIGURE, [IMAGE]), i + 1)
  {
    hide TrimSpace, FenceMarker;
    ImageIsText();
    ImageParses();
    assert IMAGE != Figures.BEGIN by { assert |IMAGE| != |Figures.BEGIN|; }
  }

  lemma ImageIsText()
    ensures TrimSpace(IMAGE) == IMAGE && Classify(REST, IMAGE) == TextLine
  {
    assert Trimmed(IMAGE);
    assert IMAGE[0] == '!';
    assert FenceMarker(IMAGE) == "" && EquationEnd(IMAGE) == "";
  }

  lemma ImageParses()
    ensures Figures.ParseStandaloneLine(IMAGE) == Some(IMAGE_FIGURE)
  {
    hide TrimSpace;
    assert Find(IMAGE, 2, ']') == Some(3) by { assert Find(IMAGE, 3, ']') == Some(3); }
    assert Find(IMAGE, 5, ')') == Some(6) by { assert Find(IMAGE, 6, ')') == Some(6); }
    assert IMAGE[2..3] == "a" && IMAGE[5..6] == "b" && IMAGE[0..2] == "![" && IMAGE[4..5] == "(";
    assert ImageAt(IMAGE, 0) == Some(Image("a", "b", 7));
    assert Trimmed("a") && Trimmed("b");
    DestinationPlain();
  }

  lemma DestinationPlain()
    ensures Figures.ImageDestination("b") == "b"
  {
    assert Trimmed("b");
    assert Find("b", 0, ' ') == None by { assert Find("b", 1, ' ') == None; }
  }

  /** A source of `m` images has `m` figures. */
  lemma {:induction false} ImagesAreFigures(lines: seq<string>, i: nat, c: Figures.Collected)
    requires i <= |lines| && forall k :: 0 <= k < |lines| ==> lines[k] == IMAGE
    ensures var figures := Figures.Emit(c, Figures.Steps(lines, i, REST)).figures;
            figures == c.figures + seq(|lines| - i, _ => IMAGE_FIGURE)
    decreases |lines| - i
  {
    hide Figures.NextStep;
    if i < |lines| {
      var step := Figures.Numbered(IMAGE_FIGURE, [IMAGE]);
      ImageStep(lines, i);
      Figures.EmitNextStep(c, lines, i, REST);
      ImagesAreFigures(lines, i + 1, c.Then(step));
    } else {
      Figures.NoMoreSteps(c, lines, REST);
    }
  }

  lemma PlainImage()
    ensures EscapeHtml("a") == "a" && EscapeHtml("b") == "b" && EscapeHtml("") == "" && TrimSpace("a") == "a"
  {
    assert Trimmed("a");
    assert EscapeHtml("a"[1..]) == "" && EscapeHtml("b"[1..]) == "";
  }

  lemma ImageTagFree()
    ensures 'P' !in " class=\"article-figure\">" && 'P' !in "<img src=\"" && 'P' !in "\" alt=\"" && 'P' !in "\" loading=\"lazy\">"
  {
  }

  lemma CaptionTagsFree()
    ensures 'P' !in "<figcaption>" && 'P' !in "<span class=\"figure-number\">" && 'P' !in "Figure " && 'P' !in ".</span>"
  {
  }

  lemma TagsFree()
    ensures 'P' !in " class=\"article-figure\">" && 'P' !in "<img src=\"" && 'P' !in "\" alt=\"" && 'P' !in "\" loading=\"lazy\">"
    ensures 'P' !in "<figcaption>" && 'P' !in "<span class=\"figure-number\">" && 'P' !in "Figure " && 'P' !in ".</span>"
    ensures 'P' !in "<figure" && 'P' !in FIGURE_END && 'P' !in "a" && 'P' !in "b" && 'P' !in " "
  {
    ImageTagFree();
    CaptionTagsFree();
  }

  lemma NotIn(c: char, a: string, b: string)
    requires c !in a && c !in b
    ensures c !in a + b
  {
  }

  lemma ImageValueFree(number: nat)
    ensures 'P' !in RenderFigureHTML(Figures.Rendered(IMAGE_FIGURE, number, ""))
  {
    hide EscapeHtml, Decimal, TrimSpace;
    PlainImage();
    TagsFree();
    DigitsFree(number);
    var tags := " class=\"article-figure\">" + "<img src=\"" + "b" + "\" alt=\"" + "a" + "\" loading=\"lazy\">";
    var caption := "<figcaption>" + "<span class=\"figure-number\">" + "Figure " + Decimal(number) + ".</span>" + (" " + "a");
    assert FigureContent(Figures.Rendered(IMAGE_FIGURE, number, "")) == tags + caption;
    NotIn('P', tags, caption);
    NotIn('P', "<figure", tags + caption);
    NotIn('P', "<figure" + (tags + caption), FIGURE_END);
  }

  lemma DigitsFree(n: nat)
    ensures 'P' !in Decimal(n)
  {
  }

  lemma FreeWithoutFirst(text: string, mark: string)
    requires mark != "" && mark[0] !in text
    ensures Free(text, mark)
  {
    forall i | 0 <= i <= |text| ensures !(mark <= text[i..]) {
      assert i < |text| ==> text[i..][0] == text[i];
    }
  }

  /** The paragraphs of `n` tokens, a line each. */
  function Paragraphs(n: nat): (seq<string>, seq<Hole>) {
    (seq(n + 1, k => if 0 < k < n then "\n" else ""), seq(n, k requires 0 <= k < n => Hole(k, true)))
  }

  lemma ImagePage(figures: seq<Figures.Figure>)
    requires figures == seq(11, _ => IMAGE_FIGURE)
    ensures var (lits, holes) := Paragraphs(11);
            && Fits(lits, holes, Tokens(FIGURE_MARK, 11), FigureValues(figures))
            && Clean(lits, holes, FigureValues(figures), FIGURE_MARK)
  {
    hide RenderFigureHTML, Element, Figures.References, Free;
    var vals := FigureValues(figures);
    forall k | 0 <= k < 11 ensures Free(vals[k], FIGURE_MARK) && Element(vals[k]) {
      assert Figures.Anchor(figures, k) == "";
      ImageValueFree(k + 1);
      FigureIsElement(Figures.Rendered(figures[k], k + 1, ""));
      assert FIGURE_MARK[0] == 'P';
      FreeWithoutFirst(vals[k], FIGURE_MARK);
    }
    FreeWithoutFirst("\n", FIGURE_MARK);
    FreeWithoutFirst("", FIGURE_MARK);
  }

  /** A source of eleven images: their page, a paragraph for each, comes out wrong in some order. */
  lemma ElevenImages() returns (order: seq<nat>)
    ensures var figures := Figures.Collect(seq(11, _ => IMAGE)).figures;
            var (lits, holes) := Paragraphs(11);
            && |figures| == 11
            && Fits(lits, holes, Tokens(FIGURE_MARK, 11), FigureValues(figures))
            && IsOrder(order, 11)
            && !RestoresIn(lits, holes, FigureValues(figures), FIGURE_MARK, 11, order)
  {
    hide Clean, RestoresIn, IsOrder, Figures.Steps, Figures.Emit, RenderFigureHTML, Fits;
    var figures := Figures.Collect(seq(11, _ => IMAGE)).figures;
    ImagesAreFigures(seq(11, _ => IMAGE), 0, Figures.NONE_YET);
    assert figures == [] + seq(11, _ => IMAGE_FIGURE);
    assert figures == seq(11, _ => IMAGE_FIGURE);
    ImagePage(figures);
    LastIsAlone();
    var (lits, holes) := Paragraphs(11);
    order := EleventhFigureIsLost(figures, lits, holes, 10);
  }

  lemma LastIsAlone()
    ensures var holes := Paragraphs(11).1;
            |holes| == 11 && holes[10] == Hole(10, true) && forall i :: 0 <= i < 10 ==> holes[i].slot < 10
  {
  }
}
