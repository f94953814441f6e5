/** Markdown links read back: what the text, the target and the anchor of a written link say. */
module LinkTexts {
  import opened Text
  import opened Substitution
  import opened Links
  import opened Spelling
  import Figures
  import Equations
  import Importer

  // ---------------------------------------------------------------- reading escaped text

  /** Reads up to the first bare `end`: a character after a backslash stands for itself. The text and what follows;
      nothing if one of `barred` stands there bare. */
  function ReadUpTo(s: string, end: char, barred: string): Option<(string, string)>
    decreases |s|
  {
    if s == "" then None
    else if s[0] == end then Some(("", s[1..]))
    else if s[0] in barred || s == "\\" then None
    else
      var n := if s[0] == '\\' then 2 else 1;
      match ReadUpTo(s[n..], end, barred)
      case None => None
      case Some((text, rest)) => Some(([s[n - 1]] + text, rest))
  }

  datatype Link = Link(text: string, target: string)

  /** A link at the front of a text, and what follows it. */
  function ReadLink(s: string): Option<(Link, string)> {
    if !("[" <= s) then None
    else match ReadUpTo(s[1..], ']', "[")
      case None => None
      case Some((text, rest)) =>
        if !("(" <= rest) then None
        else match ReadPlain(rest[1..], ')')
          case None => None
          case Some((target, after)) => Some((Link(text, target), after))
  }

  /** Reads up to the first `end`. */
  function ReadPlain(s: string, end: char): Option<(string, string)> {
    if s == "" then None
    else if s[0] == end then Some(("", s[1..]))
    else match ReadPlain(s[1..], end)
      case None => None
      case Some((text, rest)) => Some(([s[0]] + text, rest))
  }

  // ---------------------------------------------------------------- escaping, character by character

  lemma ReplaceStep(s: string, c: char, sub: string)
    requires s != ""
    ensures ReplaceAll(s, [c], sub) == (if s[0] == c then sub else [s[0]]) + ReplaceAll(s[1..], [c], sub)
  {
    assert [c] <= s <==> s[0] == c;
  }

  lemma {:induction false} ReplaceCharAppend(a: string, b: string, c: char, sub: string)
    ensures ReplaceAll(a + b, [c], sub) == ReplaceAll(a, [c], sub) + ReplaceAll(b, [c], sub)
  {
    hide ReplaceAll;
    if a == "" {
      assert a + b == b;
      ReplacedNothing([c], sub);
    } else {
      assert (a + b)[1..] == a[1..] + b;
      ReplaceCharAppend(a[1..], b, c, sub);
      ReplaceStep(a + b, c, sub);
      ReplaceStep(a, c, sub);
    }
  }

  lemma ReplaceOne(d: char, c: char, sub: string)
    ensures ReplaceAll([d], [c], sub) == if d == c then sub else [d]
  {
    ReplaceStep([d], c, sub);
    ReplacedNothing([c], sub);
  }

  lemma ReplaceTwo(d: char, e: char, c: char, sub: string)
    requires d != c && e != c
    ensures ReplaceAll([d, e], [c], sub) == [d, e]
  {
    ReplaceCharAppend([d], [e], c, sub);
    ReplaceOne(d, c, sub);
    ReplaceOne(e, c, sub);
    assert [d] + [e] == [d, e];
  }

  /** A backslash before each character that has one to itself. */
  function Escaped(c: char, special: string): string { if c in special then ['\\', c] else [c] }

  lemma EscapeLinkChar(c: char, rest: string)
    ensures EscapeLinkText([c] + rest) == Escaped(c, "\\[]") + EscapeLinkText(rest)
  {
    hide ReplaceAll;
    var one := ReplaceAll([c], "\\", "\\\\");
    var two := ReplaceAll(one, "[", "\\[");
    ReplaceOne(c, '\\', "\\\\");
    if c == '\\' {
      ReplaceTwo('\\', '\\', '[', "\\[");
      ReplaceTwo('\\', '\\', ']', "\\]");
    } else if c == '[' {
      ReplaceOne('[', '[', "\\[");
      ReplaceTwo('\\', '[', ']', "\\]");
    } else {
      ReplaceOne(c, '[', "\\[");
      ReplaceOne(c, ']', "\\]");
    }
    var rest1 := ReplaceAll(rest, "\\", "\\\\");
    ReplaceCharAppend([c], rest, '\\', "\\\\");
    ReplaceCharAppend(one, rest1, '[', "\\[");
    ReplaceCharAppend(two, ReplaceAll(rest1, "[", "\\["), ']', "\\]");
  }

  lemma EscapeAltChar(c: char, rest: string)
    ensures Importer.EscapeAlt([c] + rest) == Escaped(c, "\\]") + Importer.EscapeAlt(rest)
  {
    hide ReplaceAll;
    var one := ReplaceAll([c], "\\", "\\\\");
    ReplaceOne(c, '\\', "\\\\");
    if c == '\\' { ReplaceTwo('\\', '\\', ']', "\\]"); } else { ReplaceOne(c, ']', "\\]"); }
    ReplaceCharAppend([c], rest, '\\', "\\\\");
    ReplaceCharAppend(one, ReplaceAll(rest, "\\", "\\\\"), ']', "\\]");
  }

  lemma EscapeCaptionChar(c: char, rest: string)
    ensures Importer.EscapeCaption([c] + rest)
         == (if c == '{' || c == '}' then "" else Escaped(c, "\\")) + Importer.EscapeCaption(rest)
  {
    hide ReplaceAll;
    var one := ReplaceAll([c], "\\", "\\\\");
    var two := ReplaceAll(one, "{", "");
    ReplaceOne(c, '\\', "\\\\");
    if c == '\\' {
      ReplaceTwo('\\', '\\', '{', "");
      ReplaceTwo('\\', '\\', '}', "");
    } else if c == '{' {
      ReplaceOne('{', '{', "");
      ReplacedNothing("}", "");
    } else {
      ReplaceOne(c, '{', "");
      ReplaceOne(c, '}', "");
    }
    var rest1 := ReplaceAll(rest, "\\", "\\\\");
    ReplaceCharAppend([c], rest, '\\', "\\\\");
    ReplaceCharAppend(one, rest1, '{', "");
    ReplaceCharAppend(two, ReplaceAll(rest1, "{", ""), '}', "");
  }

  lemma ReplacedNothing(pat: string, sub: string)
    requires pat != ""
    ensures ReplaceAll("", pat, sub) == ""
  {
  }

  lemma ReadsChar(c: char, special: string, s: string, end: char, barred: string)
    requires '\\' in special && end in special && end != '\\' && forall d :: d in barred ==> d in special && d != '\\'
    ensures ReadUpTo(Escaped(c, special) + s, end, barred)
         == match ReadUpTo(s, end, barred) case None => None case Some((text, rest)) => Some(([c] + text, rest))
  {
    var t := Escaped(c, special) + s;
    assert t[|Escaped(c, special)|..] == s;
    if c in special {
      assert t[0] == '\\' && t[1] == c && t != "\\";
    } else {
      assert t[0] == c && c != '\\' && c != end && c !in barred;
    }
  }

  // ---------------------------------------------------------------- links

  lemma {:induction false} LinkTextReads(text: string, rest: string)
    ensures ReadUpTo(EscapeLinkText(text) + "]" + rest, ']', "[") == Some((text, rest))
  {
    hide EscapeLinkText, ReadUpTo;
    if text == "" {
      EscapedNothing();
      assert EscapeLinkText(text) + "]" + rest == "]" + rest;
      EndsThere(rest);
    } else {
      LinkTextReads(text[1..], rest);
      EscapeLinkChar(text[0], text[1..]);
      assert text == [text[0]] + text[1..];
      var head, tail := Escaped(text[0], "\\[]"), EscapeLinkText(text[1..]);
      assert (head + tail) + "]" + rest == head + (tail + "]" + rest);
      ReadsChar(text[0], "\\[]", tail + "]" + rest, ']', "[");
    }
  }

  lemma EscapedNothing()
    ensures EscapeLinkText("") == "" && Importer.EscapeAlt("") == "" && Importer.EscapeCaption("") == ""
  {
  }

  lemma EndsThere(rest: string)
    ensures ReadUpTo("]" + rest, ']', "[") == Some(("", rest)) && ReadUpTo("]" + rest, ']', "") == Some(("", rest))
  {
    assert ("]" + rest)[1..] == rest;
  }

  lemma {:induction false} PlainReads(target: string, end: char, rest: string)
    requires end !in target
    ensures ReadPlain(target + [end] + rest, end) == Some((target, rest))
  {
    var s := target + [end] + rest;
    if target == "" {
      assert s[1..] == rest;
    } else {
      PlainReads(target[1..], end, rest);
      assert s[1..] == target[1..] + [end] + rest;
      assert s[0] in target && [target[0]] + target[1..] == target;
    }
  }

  /** A link with an escaped text is read as a link with this text and target, whatever the text. */
  lemma LinkReads(text: string, target: string, rest: string)
    requires ')' !in target
    ensures ReadLink("[" + EscapeLinkText(text) + "](" + target + ")" + rest) == Some((Link(text, target), rest))
  {
    hide EscapeLinkText, ReadUpTo, ReadPlain;
    var s := "[" + EscapeLinkText(text) + "](" + target + ")" + rest;
    var after := "(" + (target + ")" + rest);
    LinkTextReads(text, after);
    PlainReads(target, ')', rest);
    assert s[1..] == EscapeLinkText(text) + "]" + after;
    assert after[1..] == target + ")" + rest;
  }

  // ---------------------------------------------------------------- anchors

  /** What an anchor shows of a label. */
  function AnchorLetter(c: char): Option<char> { if c == '_' then Some('_') else Letter(c) }

  lemma {:induction false} AnchorTextWords(s: string, lastDash: bool)
    requires forall i :: 0 <= i < |s| ==>
      AnchorLetter(s[i]) == if AnchorChar(s[i]) && s[i] != '-' then Some(s[i]) else None
    ensures Words(AnchorText(s, lastDash), AnchorLetter) == Words(s, AnchorLetter)
    ensures var r := AnchorText(s, lastDash);
            s != "" && !lastDash ==> r != "" && (AnchorLetter(r[0]).Some? <==> AnchorLetter(s[0]).Some?)
    ensures forall i :: 0 <= i < |AnchorText(s, lastDash)| ==> AnchorChar(AnchorText(s, lastDash)[i])
  {
    hide AnchorLetter, AnchorChar;
    if s != "" {
      var last := !AnchorChar(s[0]);
      AnchorTextWords(s[1..], last);
      var rest := AnchorText(s[1..], last);
      assert ([s[0]] + rest)[1..] == rest && (['-'] + rest)[1..] == rest;
      DashIsNoLetter();
      if |s| > 1 {
        assert s[1..][0] == s[1];
        if rest != "" { assert ([s[0]] + rest)[1] == rest[0]; }
      }
      var r := AnchorText(s, lastDash);
      if AnchorChar(s[0]) {
        assert r == [s[0]] + rest;
      } else if lastDash {
        assert r == rest;
      } else {
        assert r == ['-'] + rest;
      }
    }
  }

  lemma {:induction false} WordsOfTrimChar(s: string, c: char, letter: Speller)
    requires letter(c).None?
    ensures Words(TrimChar(s, c), letter) == Words(s, letter)
    decreases |s|
  {
    if s != "" {
      if s[0] == c {
        WordsOfTrimChar(s[1..], c, letter);
      } else if s[|s| - 1] == c {
        WordsOfTrimChar(s[..|s| - 1], c, letter);
        WordsOfEnd(s[..|s| - 1], c, letter);
        assert s == s[..|s| - 1] + [c];
      }
    }
  }

  lemma LettersShow()
    ensures forall c :: IsSpace(c) ==> AnchorLetter(c).None?
    ensures forall c :: AnchorLetter(LowerChar(c)) == AnchorLetter(c)
    ensures forall c :: var l := LowerChar(c); AnchorLetter(l) == if AnchorChar(l) && l != '-' then Some(l) else None
  {
  }

  lemma AnchorWords(key: string)
    ensures var id := TrimChar(AnchorText(Lower(TrimSpace(key)), false), '-');
            && Words(id, AnchorLetter) == Words(key, AnchorLetter)
            && forall i :: 0 <= i < |id| ==> AnchorChar(id[i])
  {
    hide TrimSpace, Lower, Words, TrimChar, AnchorText, AnchorLetter, AnchorChar, LowerChar, IsSpace;
    var s := Lower(TrimSpace(key));
    LettersShow();
    assert AnchorLetter('-').None? by { DashIsNoLetter(); }
    WordsOfTrimmed(key, AnchorLetter);
    WordsOfLower(TrimSpace(key), AnchorLetter);
    AnchorTextWords(s, false);
    WordsOfTrimChar(AnchorText(s, false), '-', AnchorLetter);
    var id := TrimChar(AnchorText(s, false), '-');
    forall i | 0 <= i < |id| ensures AnchorChar(id[i]) {
      assert id[i] in AnchorText(s, false);
    }
  }

  lemma DashIsNoLetter()
    ensures AnchorLetter('-').None? && AnchorChar('-')
  {
  }

  /** The anchor of a label is its prefix and, in order, the words of the label; a label without any has the bare
      prefix twice. Nothing in it ends a link or an attribute. */
  lemma AnchorSpells(prefix: string, key: string)
    requires HasSuffix(prefix, "-") && forall i :: 0 <= i < |prefix| ==> AnchorChar(prefix[i])
    ensures var anchor := PrefixedAnchor(prefix, key);
            && prefix <= anchor
            && (forall i :: 0 <= i < |anchor| ==> AnchorChar(anchor[i]))
            && (Words(key, AnchorLetter) != [] ==> Words(anchor[|prefix|..], AnchorLetter) == Words(key, AnchorLetter))
  {
    hide TrimSpace, Lower, TrimChar, AnchorText, AnchorLetter, AnchorChar;
    AnchorWords(key);
    var id := TrimChar(AnchorText(Lower(TrimSpace(key)), false), '-');
    assert id == "" ==> Words(id, AnchorLetter) == [];
    var anchor := PrefixedAnchor(prefix, key);
    if id != "" { assert anchor[|prefix|..] == id; }
  }

  /** The anchor of an equation, also of a later one with the same label. */
  lemma EquationAnchorChars(equations: seq<Equations.Equation>, j: nat)
    requires j < |equations|
    ensures forall i :: 0 <= i < |Equations.Anchor(equations, j)| ==> AnchorChar(Equations.Anchor(equations, j)[i])
  {
    hide PrefixedAnchor, Decimal;
    AnchorSpells("eq-", equations[j].key);
  }

  lemma TargetCloses(prefix: string, key: string)
    requires prefix == "fig-" || prefix == "eq-"
    ensures ')' !in "#" + PrefixedAnchor(prefix, key)
  {
    hide PrefixedAnchor;
    AnchorSpells(prefix, key);
    assert !AnchorChar(')');
  }

  // ---------------------------------------------------------------- the links of the page

  /** A reference to a figure is a link whose text is the number of the first figure with its label and whose target
      is that figure's anchor; an unknown label shows question marks. */
  lemma FigureReferenceReads(figures: seq<Figures.Figure>, content: string, raw: string, named: bool)
    ensures var markdown := Figures.ReferenceMarkdown(content, raw, Figures.References(figures), named);
            match FirstWithLabel(figures, Figures.LabelOf, TrimSpace(content))
            case Some(k) => TrimSpace(content) != "" ==>
              ReadLink(markdown)
              == Some((Link((if named then "Figure " else "") + Decimal(k + 1), "#" + Figures.Anchor(figures, k)), ""))
            case None => markdown == if named then "Figure ??" else if "fig:" <= TrimSpace(content) then "??" else raw
  {
    hide EscapeLinkText, PrefixedAnchor, ReadLink, TrimSpace, FirstWithLabel, Figures.Anchor, Figures.References;
    var key := TrimSpace(content);
    Figures.ReferencesResolveFirst(figures, key);
    if key in Figures.References(figures) {
      Figures.FirstAnchor(figures, key);
      var k := FirstWithLabel(figures, Figures.LabelOf, key).value;
      AnchorLinkReads((if named then "Figure " else "") + Decimal(k + 1), "fig-", key);
    }
  }

  lemma AnchorLinkReads(text: string, prefix: string, key: string)
    requires prefix == "fig-" || prefix == "eq-"
    ensures ReadLink("[" + EscapeLinkText(text) + "](#" + PrefixedAnchor(prefix, key) + ")")
         == Some((Link(text, "#" + PrefixedAnchor(prefix, key)), ""))
  {
    hide *;
    var anchor := PrefixedAnchor(prefix, key);
    TargetCloses(prefix, key);
    LinkReads(text, "#" + anchor, "");
    assert "[" + EscapeLinkText(text) + "](" + ("#" + anchor) + ")" + "" == "[" + EscapeLinkText(text) + "](#" + anchor + ")";
  }

  /** Likewise for equations, whose tags may be any text. */
  lemma EquationReferenceReads(equations: seq<Equations.Equation>, content: string, raw: string, parenthesized: bool)
    ensures var markdown := Equations.ReferenceMarkdown(content, raw, Equations.References(equations), parenthesized);
            match FirstWithLabel(equations, Equations.LabelOf, TrimSpace(content))
            case Some(k) => TrimSpace(content) != "" ==>
              var n := equations[k].number;
              ReadLink(markdown)
              == Some((Link(if parenthesized then "(" + n + ")" else n, "#" + Equations.Anchor(equations, k)), ""))
            case None => markdown == if parenthesized then "(??)" else "??"
  {
    hide EscapeLinkText, PrefixedAnchor, ReadLink, TrimSpace, FirstWithLabel, Equations.Anchor, Equations.References;
    var key := TrimSpace(content);
    Equations.ReferencesResolveFirst(equations, key);
    if key in Equations.References(equations) {
      Equations.FirstAnchor(equations, key);
      var k := FirstWithLabel(equations, Equations.LabelOf, key).value;
      var n := equations[k].number;
      AnchorLinkReads(if parenthesized then "(" + n + ")" else n, "eq-", key);
    }
  }

  // ---------------------------------------------------------------- the texts of an import

  lemma {:induction false} AltReads(alt: string, rest: string)
    ensures ReadUpTo(Importer.EscapeAlt(alt) + "]" + rest, ']', "") == Some((alt, rest))
  {
    hide Importer.EscapeAlt, ReadUpTo;
    if alt == "" {
      EscapedNothing();
      assert Importer.EscapeAlt(alt) + "]" + rest == "]" + rest;
      EndsThere(rest);
    } else {
      AltReads(alt[1..], rest);
      EscapeAltChar(alt[0], alt[1..]);
      assert alt == [alt[0]] + alt[1..];
      var head, tail := Escaped(alt[0], "\\]"), Importer.EscapeAlt(alt[1..]);
      assert (head + tail) + "]" + rest == head + (tail + "]" + rest);
      ReadsChar(alt[0], "\\]", tail + "]" + rest, ']', "");
    }
  }

  function WithoutBraces(s: string): string {
    if s == "" then "" else (if s[0] == '{' || s[0] == '}' then "" else [s[0]]) + WithoutBraces(s[1..])
  }

  /** A caption loses its braces, and a closing brace ends it. */
  lemma {:induction false} CaptionReads(caption: string, rest: string)
    ensures ReadUpTo(Importer.EscapeCaption(caption) + "}" + rest, '}', "{") == Some((WithoutBraces(caption), rest))
  {
    hide Importer.EscapeCaption, ReadUpTo;
    if caption == "" {
      EscapedNothing();
      assert Importer.EscapeCaption(caption) + "}" + rest == "}" + rest;
      BraceEnds(rest);
    } else {
      var c, more := caption[0], caption[1..];
      CaptionReads(more, rest);
      EscapeCaptionChar(c, more);
      assert caption == [c] + more;
      var tail := Importer.EscapeCaption(more);
      if c == '{' || c == '}' {
        assert Importer.EscapeCaption(caption) == tail;
        assert WithoutBraces(caption) == WithoutBraces(more);
      } else {
        assert (Escaped(c, "\\") + tail) + "}" + rest == Escaped(c, "\\") + (tail + "}" + rest);
        assert Escaped(c, "\\{}") == Escaped(c, "\\");
        ReadsChar(c, "\\{}", tail + "}" + rest, '}', "{");
      }
    }
  }

  lemma BraceEnds(rest: string)
    ensures ReadUpTo("}" + rest, '}', "{") == Some(("", rest))
  {
    assert ("}" + rest)[1..] == rest;
  }

  /** A link of an imported body shows its label, or its address if it has none. */
  lemma ImportedLinkReads(text: string, href: string, path: string, rest: string)
    requires ')' !in path
    ensures ReadLink(Importer.LinkStart(text, href) + path + ")" + rest)
         == Some((Link(if TrimSpace(text) != "" then TrimSpace(text) else TrimSpace(href), path), rest))
  {
    hide EscapeLinkText, ReadLink, TrimSpace;
    var shown := if TrimSpace(text) != "" then TrimSpace(text) else TrimSpace(href);
    LinkReads(shown, path, rest);
  }
}
