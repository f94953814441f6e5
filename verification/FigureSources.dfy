/** How figures are written in a source, against the pass that reads them. */
module FigureSources {
  import opened Text
  import opened Patterns
  import opened Commands
  import opened Figures
  import opened Substitution
  import Importer
  import LinkTexts

  // ---------------------------------------------------------------- images as they are written

  /** An image stands at `i`. */
  ghost predicate ImageWritten(s: string, i: nat, image: Image) {
    && ']' !in image.alt
    && ')' !in image.target
    && image.target != ""
    && image.end == i + |image.alt| + |image.target| + 5 <= |s|
    && s[i..image.end] == "![" + image.alt + "](" + image.target + ")"
  }

  ghost predicate FirstImageAt(s: string, i: nat, image: Image, k: nat) {
    && i <= k
    && ImageWritten(s, k, image)
    && forall j, other :: i <= j < k ==> !ImageWritten(s, j, other)
  }

  ghost predicate FirstImageWritten(s: string, image: Image) {
    exists k: nat :: FirstImageAt(s, 0, image, k)
  }

  lemma ImageParts(s: string, i: nat, image: Image)
    requires ImageWritten(s, i, image)
    ensures ImageAt(s, i) == Some(image)
  {
    var alt, target := image.alt, image.target;
    var j, k := i + 2 + |alt|, i + 4 + |alt| + |target|;
    var whole := "![" + alt + "](" + target + ")";
    assert s[i..image.end] == whole;
    PartAt(s, i, image.end, "", "![", alt + "](" + target + ")");
    PartAt(s, i, image.end, "![", alt, "](" + target + ")");
    PartAt(s, i, image.end, "![" + alt, "](", target + ")");
    PartAt(s, i, image.end, "![" + alt + "](", target, ")");
    PartAt(s, i, image.end, "![" + alt + "](" + target, ")", "");
    ImageClosers(s, i, j, k, alt, target);
  }

  lemma ImageClosers(s: string, i: nat, j: nat, k: nat, alt: string, target: string)
    requires At(s, i, "![") && At(s, i + 2, alt) && j == i + 2 + |alt| && At(s, j, "](") && At(s, j + 2, target)
    requires k == j + 2 + |target| && At(s, k, ")") && ']' !in alt && ')' !in target && target != ""
    ensures ImageAt(s, i) == Some(Image(alt, target, k + 1))
  {
    assert s[j] == s[j..j + 2][0] && s[j + 1] == s[j..j + 2][1] && s[k] == s[k..k + 1][0];
    forall n | i + 2 <= n < j ensures s[n] != ']' { assert s[n] == s[i + 2..j][n - i - 2]; }
    forall n | j + 2 <= n < k ensures s[n] != ')' { assert s[n] == s[j + 2..k][n - j - 2]; }
    FindIs(s, i + 2, ']', j);
    FindIs(s, j + 2, ')', k);
    assert At(s, j + 1, "(");
  }

  lemma ImageIsWritten(s: string, i: nat)
    requires ImageAt(s, i).Some?
    ensures ImageWritten(s, i, ImageAt(s, i).value)
  {
    var image := ImageAt(s, i).value;
    var a, t := |image.alt|, |image.target|;
    assert s[i..i + 2] == "![" && s[i + 2 + a] == ']' && s[i + 3 + a..i + 4 + a] == "(";
    assert s[i..image.end]
        == s[i..i + 2] + s[i + 2..i + 2 + a] + [s[i + 2 + a]] + s[i + 3 + a..i + 4 + a] + s[i + 4 + a..i + 4 + a + t] + [s[i + 4 + a + t]];
  }

  lemma {:induction false} FirstImageIs(s: string, i: nat) returns (k: nat)
    ensures match FirstImage(s, i)
      case Some(image) => FirstImageAt(s, i, image, k)
      case None => forall k: nat, image :: i <= k ==> !ImageWritten(s, k, image)
    decreases |s| - i
  {
    hide ImageAt, ImageWritten;
    k := i;
    if i < |s| {
      if image :| ImageWritten(s, i, image) { ImageParts(s, i, image); }
      if ImageAt(s, i).Some? {
        ImageIsWritten(s, i);
      } else {
        k := FirstImageIs(s, i + 1);
      }
    } else {
      NoImageBeyond(s, i);
    }
  }

  lemma NoImageBeyond(s: string, i: nat)
    requires i >= |s|
    ensures forall k: nat, image :: i <= k ==> !ImageWritten(s, k, image)
  {
  }

  lemma FirstImageIff(s: string, image: Image)
    ensures FirstImage(s, 0) == Some(image) <==> FirstImageWritten(s, image)
  {
    hide FirstImage, ImageAt, ImageWritten;
    var k' := FirstImageIs(s, 0);
    if FirstImageWritten(s, image) {
      var k: nat :| FirstImageAt(s, 0, image, k);
      assert k == k';
      ImageParts(s, k, image);
      ImageParts(s, k, FirstImage(s, 0).value);
    }
  }

  // ---------------------------------------------------------------- what the pass reads

  /** The address is the core of what stands between the parentheses: without white space and angles around it,
      and without a title after a blank. */
  lemma DestinationReads(left: string, open: string, core: string, close: string, title: string, right: string)
    requires AllSpace(left) && AllSpace(right)
    requires forall i :: 0 <= i < |open| ==> open[i] == '<' || open[i] == '>'
    requires forall i :: 0 <= i < |close| ==> close[i] == '<' || close[i] == '>'
    requires core != "" && core[0] !in "<>" && core[|core| - 1] !in "<>" && Trimmed(core) && ' ' !in core
    requires title == "" || (title[0] == ' ' && !IsSpace(title[|title| - 1]))
    ensures ImageDestination(left + (open + core + close + title) + right) == core
  {
    hide AllSpace, IsSpace;
    var value := open + core + close + title;
    AnglesAreNoSpace();
    assert Trimmed(value) by {
      assert value[0] == if open == "" then core[0] else open[0];
      assert value[|value| - 1]
          == if title != "" then title[|title| - 1] else if close != "" then close[|close| - 1] else core[|core| - 1];
    }
    TrimPadded(left, value, right);
    var head := open + core + close;
    assert forall i :: 0 <= i < |core| ==> core[i] in core;
    if title == "" {
      NoneFound(value, 0, ' ');
      assert value == head;
    } else {
      FindIs(value, 0, ' ', |head|);
      assert value[..|head|] == head;
    }
    AnglesTrimmed(open, core, close);
  }

  lemma AnglesAreNoSpace()
    ensures !IsSpace('<') && !IsSpace('>')
  {
  }

  lemma {:induction false} NoneFound(s: string, i: nat, c: char)
    requires forall j :: i <= j < |s| ==> s[j] != c
    ensures Find(s, i, c).None?
    decreases |s| - i
  {
    if i < |s| { NoneFound(s, i + 1, c); }
  }

  lemma {:induction false} AnglesTrimmed(open: string, core: string, close: string)
    requires forall i :: 0 <= i < |open| ==> open[i] == '<' || open[i] == '>'
    requires forall i :: 0 <= i < |close| ==> close[i] == '<' || close[i] == '>'
    requires core != "" && core[0] !in "<>" && core[|core| - 1] !in "<>"
    ensures TrimAngles(open + core + close) == core
    decreases |open| + |close|
  {
    var s := open + core + close;
    if open != "" {
      assert s[1..] == open[1..] + core + close;
      AnglesTrimmed(open[1..], core, close);
    } else if close != "" {
      assert s[0] == core[0] && s[..|s| - 1] == open + core + close[..|close| - 1];
      AnglesTrimmed(open, core, close[..|close| - 1]);
    } else {
      assert s == core;
    }
  }

  /** What a figure block with this body stands for: its first image, its first caption or else the text of the image,
      and its first label if it has one. */
  ghost predicate Describes(body: string, figure: Figure) {
    && (exists image :: FirstImageWritten(body, image)
          && TrimSpace(image.alt) == figure.alt && ImageDestination(image.target) == figure.src)
    && figure.src != ""
    && (Says(body, CAPTION, figure.caption)
        || ((forall said :: !Says(body, CAPTION, said)) && figure.caption == figure.alt))
    && (Says(body, LABEL, figure.key) || ((forall said :: !Says(body, LABEL, said)) && figure.key == ""))
  }

  /** The pass reads a block as a figure exactly if the block describes it. */
  lemma ParsedIffDescribed(body: string, figure: Figure)
    ensures ParseFigureBody(body) == Some(figure) <==> Describes(body, figure)
  {
    hide Command.First, FirstImage, FirstImageWritten, TrimSpace, ImageDestination, Says;
    forall image { FirstImageIff(body, image); }
    forall said { SaysIs(body, CAPTION, said); }
    forall said { SaysIs(body, LABEL, said); }
    if FirstImage(body, 0).Some? {
      assert FirstImageWritten(body, FirstImage(body, 0).value);
    }
    var caption := TrimSpace(CAPTION.First(body, 0).GetOr(""));
    var key := TrimSpace(LABEL.First(body, 0).GetOr(""));
    assert caption != "" ==> Says(body, CAPTION, caption);
    assert key != "" ==> Says(body, LABEL, key);
  }

  /** A line is a figure exactly if an image is all there is on it; its text is its caption. */
  lemma StandaloneIff(trimmed: string, figure: Figure)
    ensures ParseStandaloneLine(trimmed) == Some(figure)
       <==> && figure.src != ""
            && figure.key == ""
            && figure.caption == figure.alt
            && exists image :: ImageWritten(trimmed, 0, image) && image.end == |trimmed|
                 && TrimSpace(image.alt) == figure.alt && ImageDestination(image.target) == figure.src
  {
    hide TrimSpace, ImageDestination, ImageAt;
    forall image | ImageWritten(trimmed, 0, image) { ImageParts(trimmed, 0, image); }
    if ImageAt(trimmed, 0).Some? { ImageIsWritten(trimmed, 0); }
  }

  // ---------------------------------------------------------------- imported figures

  /** The lines of a figure block between its first and its last one. */
  function Block(alt: string, target: string, caption: string, key: string): string {
    ImageText(alt, target) + "\n" + CaptionText(caption) + "\n" + LabelText(key)
  }

  function ImageText(alt: string, target: string): string { "![" + alt + "](" + target + ")" }

  function CaptionText(caption: string): string { "\\caption{" + caption + "}" }

  function LabelText(key: string): string { "\\label{" + key + "}" }

  /** What an import writes for a picture. */
  function Imported(alt: string, path: string, caption: string, anchor: string): string {
    Block(Importer.EscapeAlt(alt), path, Importer.EscapeCaption(caption), "fig:" + anchor)
  }

  lemma ImportedBlock(alt: string, path: string, caption: string, anchor: string)
    ensures Importer.FigureStart(alt) + path + Importer.FigureEnd(caption, anchor)
         == BEGIN + "\n" + Imported(alt, path, caption, anchor) + "\n" + END
  {
    hide Importer.EscapeAlt, Importer.EscapeCaption;
    var a, c := Importer.EscapeAlt(alt), Importer.EscapeCaption(caption);
    Literals();
    StartParts(BEGIN, "\n", "![", a, "](");
    EndParts(")", "\n", "\\caption{", c, "}", "\\label{", "fig:", anchor, END);
    var q, t := "![" + a + "](", "\n" + END;
    var r := ")" + "\n" + CaptionText(c) + "\n" + LabelText("fig:" + anchor);
    Middle(BEGIN + "\n", q, path, r, t);
    BlockParts("![", a, "](", path, ")", "\n", CaptionText(c), LabelText("fig:" + anchor));
    LastParts(BEGIN + "\n", Imported(alt, path, caption, anchor), "\n", END);
  }

  lemma Literals()
    ensures "\\begin{figure}\n![" == BEGIN + "\n" + "![" && "\n\\caption{" == "\n" + "\\caption{"
    ensures "}\n\\label{fig:" == "}" + "\n" + ("\\label{" + "fig:") && "}\n\\end{figure}" == "}" + "\n" + END
  {
  }

  lemma StartParts(begin: string, n: string, i: string, a: string, m: string)
    ensures (begin + n + i) + a + m == begin + n + (i + a + m)
  {
  }

  lemma EndParts(x: string, n: string, k: string, c: string, q: string, l: string, f: string, anchor: string, end: string)
    ensures x + (n + k) + c + (q + n + (l + f)) + anchor + (q + n + end)
         == (x + n + (k + c + q) + n + (l + (f + anchor) + q)) + (n + end)
  {
  }

  lemma Middle(p: string, q: string, path: string, r: string, t: string)
    ensures (p + q) + path + (r + t) == p + (q + path + r) + t
  {
  }

  lemma BlockParts(i: string, a: string, m: string, path: string, x: string, n: string, c: string, l: string)
    ensures (i + a + m) + path + (x + n + c + n + l) == (i + a + m + path + x) + n + c + n + l
  {
  }

  lemma LastParts(p: string, b: string, n: string, end: string)
    ensures p + b + (n + end) == p + b + n + end
  {
  }

  lemma PlainAlt(alt: string)
    requires '\\' !in alt && ']' !in alt
    ensures Importer.EscapeAlt(alt) == alt
  {
    FreeOfChar(alt, '\\');
    FreeOfChar(alt, ']');
    ReplaceNothing(alt, "\\", "\\\\");
    ReplaceNothing(alt, "]", "\\]");
  }

  lemma {:induction false} PlainCaption(caption: string)
    requires '\\' !in caption
    ensures Importer.EscapeCaption(caption) == LinkTexts.WithoutBraces(caption)
    ensures '\\' !in LinkTexts.WithoutBraces(caption) && '}' !in LinkTexts.WithoutBraces(caption)
  {
    hide Importer.EscapeCaption;
    if caption == "" {
      LinkTexts.EscapedNothing();
    } else {
      PlainCaption(caption[1..]);
      LinkTexts.EscapeCaptionChar(caption[0], caption[1..]);
      assert caption == [caption[0]] + caption[1..];
      assert caption[0] in caption;
    }
  }

  lemma CaptionFirst(image: string, caption: string, rest: string)
    requires '\\' !in image && '}' !in caption
    ensures FirstWritten(image + CaptionText(caption) + rest, CAPTION, caption)
  {
    hide Stands;
    var s := image + CaptionText(caption) + rest;
    if caption == "" {
      assert CaptionText(caption) == "\\caption{" + "}";
      EmptyWritten(image, CAPTION, rest);
    } else {
      StandsBetween(image, CAPTION, caption, rest);
    }
    forall j, c | 0 <= j < |image| ensures !Stands(s, j, CAPTION, c) {
      assert s[j] == image[j] && image[j] in image;
      if Stands(s, j, CAPTION, c) { WrittenBegins(s, j, CAPTION, c); }
    }
    assert WrittenFirstAt(s, 0, CAPTION, caption, |image|);
  }

  lemma LabelFirst(image: string, caption: string, key: string)
    requires '\\' !in image && '\\' !in caption && key != "" && '}' !in key
    ensures FirstWritten(image + CaptionText(caption) + "\n" + LabelText(key), LABEL, key)
  {
    hide Stands;
    var before := image + CaptionText(caption) + "\n";
    var s := before + LabelText(key);
    StandsBetween(before, LABEL, key, "");
    assert s + "" == s;
    OnlyBackslash(image, caption);
    assert s[|image| + 1] == CaptionText(caption)[1] == 'c';
    forall j, c | 0 <= j < |before| ensures !Stands(s, j, LABEL, c) {
      assert s[j] == before[j];
      if Stands(s, j, LABEL, c) { WrittenBegins(s, j, LABEL, c); }
    }
    assert WrittenFirstAt(s, 0, LABEL, key, |before|);
  }

  lemma OnlyBackslash(image: string, caption: string)
    requires '\\' !in image && '\\' !in caption
    ensures var before := image + CaptionText(caption) + "\n";
            forall j :: 0 <= j < |before| && before[j] == '\\' ==> j == |image|
  {
    var command := CaptionText(caption);
    var before := image + command + "\n";
    forall j | 0 <= j < |before| && j != |image| ensures before[j] != '\\' {
      if j < |image| {
        assert before[j] == image[j] && image[j] in image;
      } else if j < |image| + 9 {
        assert before[j] == "\\caption{"[j - |image|];
      } else if j < |image| + 9 + |caption| {
        assert before[j] == caption[j - |image| - 9] && caption[j - |image| - 9] in caption;
      }
    }
  }

  lemma {:induction false} TrimKeeps(s: string, c: char)
    requires !IsSpace(c)
    ensures c in s <==> c in TrimSpace(s)
    decreases |s|
  {
    hide IsSpace;
    TrimmedFrom(s, c);
    if s != "" {
      if IsSpace(s[0]) {
        TrimKeeps(s[1..], c);
        assert s == [s[0]] + s[1..];
      } else if IsSpace(s[|s| - 1]) {
        TrimKeeps(s[..|s| - 1], c);
        assert s == s[..|s| - 1] + [s[|s| - 1]];
      }
    }
  }

  /** The block that an import writes for a picture, in texts without backslashes: the page reads it as a figure with
      this text, address, caption and label exactly if the text has no closing bracket, escaped as it may be. */
  lemma ImportedFigureReads(alt: string, path: string, caption: string, anchor: string)
    requires '\\' !in alt && '\\' !in path && '\\' !in caption && '}' !in anchor && Trimmed("fig:" + anchor)
    requires path != "" && Trimmed(path) && ' ' !in path && ')' !in path && '<' !in path && '>' !in path
    ensures ParseFigureBody(Imported(alt, path, caption, anchor))
            == Some(Figure(TrimSpace(alt), path, OrElse(TrimSpace(LinkTexts.WithoutBraces(caption)), TrimSpace(alt)), "fig:" + anchor))
       <==> ']' !in alt
  {
    hide ParseFigureBody, FirstWritten, FirstImageWritten, Trimmed, TrimSpace, ImageDestination, Importer.EscapeAlt,
      Importer.EscapeCaption, LinkTexts.WithoutBraces, Imported;
    var shown, body := LinkTexts.WithoutBraces(caption), Imported(alt, path, caption, anchor);
    var figure := Figure(TrimSpace(alt), path, OrElse(TrimSpace(shown), TrimSpace(alt)), "fig:" + anchor);
    ParsedIffDescribed(body, figure);
    if ']' in alt {
      BracketIsLost(body, alt, figure);
    } else {
      ImportedIsDescribed(alt, path, caption, anchor, figure);
    }
  }

  lemma BracketIsLost(body: string, alt: string, figure: Figure)
    requires ']' in alt && figure.alt == TrimSpace(alt)
    ensures !Describes(body, figure)
  {
    hide Says, ImageDestination, TrimSpace;
    TrimKeeps(alt, ']');
    forall image | FirstImageWritten(body, image) ensures TrimSpace(image.alt) != TrimSpace(alt) {
      TrimKeeps(image.alt, ']');
    }
  }

  lemma ImportedIsDescribed(alt: string, path: string, caption: string, anchor: string, figure: Figure)
    requires '\\' !in alt && ']' !in alt && '\\' !in path && '\\' !in caption && '}' !in anchor && Trimmed("fig:" + anchor)
    requires path != "" && Trimmed(path) && ' ' !in path && ')' !in path && '<' !in path && '>' !in path
    requires figure.alt == TrimSpace(alt) && figure.src == path && figure.key == "fig:" + anchor
    requires figure.caption == OrElse(TrimSpace(LinkTexts.WithoutBraces(caption)), TrimSpace(alt))
    ensures Describes(Imported(alt, path, caption, anchor), figure)
  {
    hide Describes, Trimmed, TrimSpace, Importer.EscapeAlt, Importer.EscapeCaption, LinkTexts.WithoutBraces, Block;
    PlainAlt(alt);
    PlainCaption(caption);
    DestinationIsPath(path);
    TrimOfTrimmed("fig:" + anchor);
    BlockDescribes(alt, path, LinkTexts.WithoutBraces(caption), "fig:" + anchor, figure);
  }

  /** A block written like this, in texts without backslashes and closing marks, describes the figure it names. */
  lemma BlockDescribes(alt: string, target: string, caption: string, key: string, figure: Figure)
    requires '\\' !in alt && ']' !in alt && '\\' !in target && ')' !in target && target != ""
    requires '\\' !in caption && '}' !in caption && '}' !in key && TrimSpace(key) != ""
    requires figure.alt == TrimSpace(alt) && figure.src == ImageDestination(target) != "" && figure.key == TrimSpace(key)
    requires figure.caption == OrElse(TrimSpace(caption), TrimSpace(alt))
    ensures Describes(Block(alt, target, caption, key), figure)
  {
    hide FirstWritten, FirstImageWritten, TrimSpace, ImageDestination, CaptionText, LabelText, ImageText;
    var body, image := Block(alt, target, caption, key), ImageText(alt, target) + "\n";
    var rest := "\n" + LabelText(key);
    ImageFirst(alt, target, "\n" + CaptionText(caption) + rest);
    assert body == ImageText(alt, target) + ("\n" + CaptionText(caption) + rest);
    assert '\\' !in image by { ImageIsPlain(alt, target); }
    CaptionFirst(image, caption, rest);
    assert body == image + CaptionText(caption) + rest;
    assert key != "" by { BlankTrims(); }
    LabelFirst(image, caption, key);
    CaptionSaid(body, caption, TrimSpace(alt), figure.caption);
    assert Says(body, LABEL, figure.key);
  }

  lemma ImageIsPlain(alt: string, target: string)
    requires '\\' !in alt && '\\' !in target
    ensures '\\' !in ImageText(alt, target) + "\n"
  {
  }

  lemma TrimOfTrimmed(s: string)
    requires Trimmed(s)
    ensures TrimSpace(s) == s
  {
  }

  lemma CaptionSaid(body: string, shown: string, alt: string, caption: string)
    requires FirstWritten(body, CAPTION, shown) && caption == OrElse(TrimSpace(shown), alt)
    ensures Says(body, CAPTION, caption) || ((forall said :: !Says(body, CAPTION, said)) && caption == alt)
  {
    hide FirstWritten, TrimSpace;
    if TrimSpace(shown) == "" {
      forall said ensures !Says(body, CAPTION, said) {
        SaysIs(body, CAPTION, said);
        FirstIff(CAPTION, body, shown);
      }
    }
  }

  lemma ImageFirst(alt: string, path: string, rest: string)
    requires ']' !in alt && ')' !in path && path != ""
    ensures FirstImageWritten(ImageText(alt, path) + rest, Image(alt, path, |alt| + |path| + 5))
  {
    var s, whole := ImageText(alt, path) + rest, ImageText(alt, path);
    assert s[0..|whole|] == whole;
    assert FirstImageAt(s, 0, Image(alt, path, |alt| + |path| + 5), 0);
  }

  lemma DestinationIsPath(path: string)
    requires path != "" && Trimmed(path) && ' ' !in path && '<' !in path && '>' !in path
    ensures ImageDestination(path) == path
  {
    hide Trimmed, ImageDestination;
    assert path[0] in path && path[|path| - 1] in path;
    DestinationReads("", "", path, "", "", "");
    assert "" + ("" + path + "" + "") + "" == path;
  }
}
