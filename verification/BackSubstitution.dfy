/** Putting rendered figures and equation anchors back into the HTML. Their tokens are a mark and an unpadded
    number; for each token in turn, first the paragraphs that consist of it and then its bare occurrences are
    replaced. */
module BackSubstitution {
  import opened Text
  import opened Substitution

  function Tokens(mark: string, n: nat): (toks: seq<string>)
    ensures |toks| == n && forall k :: 0 <= k < n ==> toks[k] == mark + Decimal(k)
  {
    seq(n, k requires 0 <= k < n => mark + Decimal(k))
  }

  /** The marks are upper-case letters and underscores, and their first letter occurs once. */
  predicate GoodMark(mark: string) {
    && mark != ""
    && 'A' <= mark[0] <= 'Z'
    && forall i :: 0 < i < |mark| ==> mark[i] != mark[0] && ('A' <= mark[i] <= 'Z' || mark[i] == '_')
  }

  lemma MarksAreGood()
    ensures GoodMark("POSTIZER_FIGURE_") && GoodMark("POSTIZER_EQ_ANCHOR_")
  {
  }

  lemma UnpadPrefix(mark: string, a: string, b: string)
    ensures mark + a <= mark + b <==> a <= b
  {
    assert (mark + a)[|mark|..] == a && (mark + b)[|mark|..] == b;
    if mark + a <= mark + b { assert (mark + b)[..|mark + a|][|mark|..] == b[..|a|]; }
    if a <= b { assert (mark + b)[..|mark + a|] == mark + b[..|a|]; }
  }

  lemma OneAndTen()
    ensures Decimal(1) == "1" && Decimal(10) == "10"
  {
    assert Decimal(10) == Decimal(1) + [Digit(0)];
  }

  /** Without padding, token 1 is the beginning of token 10. */
  lemma PrefixFreeUpToTen(mark: string, n: nat)
    ensures PrefixFree(Tokens(mark, n)) <==> n <= 10
  {
    hide Decimal;
    var toks := Tokens(mark, n);
    if n <= 10 {
      forall i, j | 0 <= i < n && 0 <= j < n && i != j ensures !(toks[i] <= toks[j]) {
        UnpadPrefix(mark, Decimal(i), Decimal(j));
        OneDigit(i, j);
      }
    } else {
      OneAndTen();
      UnpadPrefix(mark, Decimal(1), Decimal(10));
      assert toks[1] <= toks[10];
    }
  }

  lemma OneDigit(i: nat, j: nat)
    requires i < 10 && j < 10 && i != j
    ensures !(Decimal(i) <= Decimal(j))
  {
    DecimalRoundTrip(i);
    DecimalRoundTrip(j);
    assert |Decimal(i)| == 1 && |Decimal(j)| == 1;
  }

  // ---------------------------------------------------------------- the HTML

  /** An occurrence of token `slot`, alone in a paragraph or not. */
  datatype Hole = Hole(slot: nat, alone: bool)

  const OPEN := "<p>"
  const CLOSE := "</p>"

  function Paragraph(token: string): string { OPEN + token + CLOSE }

  /** What stands for a hole when the paragraphs of the tokens in `paras` and the other occurrences of those in
      `bare` have been replaced. */
  ghost function Shown(h: Hole, toks: seq<string>, vals: seq<string>, paras: set<nat>, bare: set<nat>): string
    requires |toks| == |vals| && h.slot < |toks|
  {
    if h.alone then (if h.slot in paras then vals[h.slot] else Paragraph(toks[h.slot]))
    else if h.slot in bare then vals[h.slot]
    else toks[h.slot]
  }

  predicate Fits(lits: seq<string>, holes: seq<Hole>, toks: seq<string>, vals: seq<string>) {
    |lits| == |holes| + 1 && |toks| == |vals| && forall j :: 0 <= j < |holes| ==> holes[j].slot < |toks|
  }

  ghost function Html(lits: seq<string>, holes: seq<Hole>, toks: seq<string>, vals: seq<string>, paras: set<nat>, bare: set<nat>): string
    requires Fits(lits, holes, toks, vals)
    decreases |holes|
  {
    if holes == [] then lits[0]
    else lits[0] + Shown(holes[0], toks, vals, paras, bare) + Html(lits[1..], holes[1..], toks, vals, paras, bare)
  }

  /** A rendered value is an element: it begins with a tag that is not a closing one and ends with a tag that does
      not open a paragraph. */
  predicate Element(value: string) {
    && |value| >= 2 && value[0] == '<' && value[1] != '/'
    && value[|value| - 1] == '>' && !HasSuffix(value, OPEN)
  }

  /** The text around the holes and the values do not contain the mark, and a hole that is not alone is not the
      whole of a paragraph. */
  ghost predicate Clean(lits: seq<string>, holes: seq<Hole>, vals: seq<string>, mark: string)
    requires |lits| == |holes| + 1
  {
    && (forall j :: 0 <= j < |lits| ==> Free(lits[j], mark))
    && (forall j :: 0 <= j < |vals| ==> Free(vals[j], mark) && Element(vals[j]))
    && (forall j :: 0 <= j < |holes| && !holes[j].alone ==> !(HasSuffix(lits[j], OPEN) && CLOSE <= lits[j + 1]))
  }

  ghost predicate TokensOf(toks: seq<string>, mark: string) {
    GoodMark(mark) && toks == Tokens(mark, |toks|) && PrefixFree(toks)
  }

  lemma TokenLetters(toks: seq<string>, mark: string, k: nat)
    requires GoodMark(mark) && toks == Tokens(mark, |toks|) && k < |toks|
    ensures mark <= toks[k] && toks[k] != "" && toks[k][0] == mark[0]
    ensures forall i :: 0 < i < |toks[k]| ==> toks[k][i] != mark[0] && toks[k][i] != '<'
    ensures forall i :: 0 <= i < |toks[k]| ==> toks[k][i] != '<'
  {
    hide Decimal;
    var digits := Decimal(k);
    assert toks[k] == mark + digits;
    assert forall i :: |mark| <= i < |toks[k]| ==> toks[k][i] == digits[i - |mark|] && IsDigit(toks[k][i]);
  }

  /** What a shown hole begins with. */
  lemma ShownStart(h: Hole, toks: seq<string>, vals: seq<string>, paras: set<nat>, bare: set<nat>, mark: string)
    requires |toks| == |vals| && h.slot < |toks| && TokensOf(toks, mark) && Element(vals[h.slot])
    ensures var s := Shown(h, toks, vals, paras, bare);
            && |s| >= 2
            && (s[0] == '<' || s[0] == mark[0])
            && (s[0] == '<' ==> s[1] != '/')
            && (s[0] == mark[0] ==> !h.alone && h.slot !in bare && s == toks[h.slot])
  {
    hide PrefixFree, Decimal, Tokens;
    TokenLetters(toks, mark, h.slot);
    TokenLength(toks, mark, h.slot);
  }

  lemma TokenLength(toks: seq<string>, mark: string, k: nat)
    requires GoodMark(mark) && toks == Tokens(mark, |toks|) && k < |toks|
    ensures |toks[k]| >= 2
  {
    hide Decimal;
    assert toks[k] == mark + Decimal(k);
  }

  /** A text without the mark stays so when something is appended that begins with none of its later letters. */
  lemma QuietText(a: string, rest: string, mark: string)
    requires GoodMark(mark) && Free(a, mark) && (rest == "" || rest[0] !in mark[1..])
    ensures Quiet(a, rest, mark)
  {
    forall i | 0 <= i < |a| ensures !(mark <= (a + rest)[i..]) {
      if i + |mark| <= |a| {
        assert (a + rest)[i..][..|mark|] == a[i..][..|mark|];
      } else if rest != "" {
        assert (a + rest)[i..][|a| - i] == rest[0];
        assert |a| - i < |mark| ==> mark[|a| - i] == mark[1..][|a| - i - 1];
      }
    }
  }

  lemma QuietElement(value: string, rest: string, mark: string)
    requires GoodMark(mark) && Free(value, mark) && Element(value)
    ensures Quiet(value, rest, mark)
  {
    forall i | 0 <= i < |value| ensures !(mark <= (value + rest)[i..]) {
      if i + |mark| <= |value| {
        assert (value + rest)[i..][..|mark|] == value[i..][..|mark|];
      } else {
        assert (value + rest)[i..][|value| - 1 - i] == '>';
      }
    }
  }

  // ---------------------------------------------------------------- bare occurrences

  lemma QuietParagraph(toks: seq<string>, mark: string, j: nat, k: nat, rest: string)
    requires TokensOf(toks, mark) && j < |toks| && k < |toks| && j != k
    ensures Quiet(Paragraph(toks[j]), rest, toks[k])
  {
    hide Tokens, Decimal;
    TokenLetters(toks, mark, j);
    TokenLetters(toks, mark, k);
    var s, pat := Paragraph(toks[j]) + rest, toks[k];
    forall i | 0 <= i < |Paragraph(toks[j])| ensures !(pat <= s[i..]) {
      if i == 3 {
        assert s[3..] == toks[j] + (CLOSE + rest);
        PrefixesOfOne(pat, toks[j], CLOSE + rest);
      } else {
        assert s[i..][0] == s[i];
        assert i > 3 && i < 3 + |toks[j]| ==> s[i] == toks[j][i - 3];
      }
    }
  }

  lemma QuietToken(toks: seq<string>, mark: string, j: nat, k: nat, rest: string)
    requires TokensOf(toks, mark) && j < |toks| && k < |toks| && j != k
    ensures Quiet(toks[j], rest, toks[k])
  {
    hide Tokens, Decimal;
    TokenLetters(toks, mark, j);
    TokenLetters(toks, mark, k);
    var s, pat := toks[j] + rest, toks[k];
    forall i | 0 <= i < |toks[j]| ensures !(pat <= s[i..]) {
      if i == 0 {
        assert s[0..] == s;
        PrefixesOfOne(pat, toks[j], rest);
      } else {
        assert s[i..][0] == toks[j][i];
      }
    }
  }

  lemma HtmlStep(lits: seq<string>, holes: seq<Hole>, toks: seq<string>, vals: seq<string>, paras: set<nat>, bare: set<nat>)
    requires Fits(lits, holes, toks, vals) && holes != []
    ensures Fits(lits[1..], holes[1..], toks, vals)
    ensures Html(lits, holes, toks, vals, paras, bare)
         == lits[0] + Shown(holes[0], toks, vals, paras, bare) + Html(lits[1..], holes[1..], toks, vals, paras, bare)
  {
  }

  lemma CleanTail(lits: seq<string>, holes: seq<Hole>, vals: seq<string>, mark: string)
    requires |lits| == |holes| + 1 && holes != [] && Clean(lits, holes, vals, mark)
    ensures Clean(lits[1..], holes[1..], vals, mark)
  {
    hide Free, Element;
    forall j | 0 <= j < |holes[1..]| && !holes[1..][j].alone
      ensures !(HasSuffix(lits[1..][j], OPEN) && CLOSE <= lits[1..][j + 1])
    {
      assert holes[j + 1] == holes[1..][j] && lits[j + 1] == lits[1..][j] && lits[j + 2] == lits[1..][j + 1];
    }
  }

  /** The literal before a hole stays as it is. */
  lemma LiteralQuiet(lit: string, h: Hole, rest: string, toks: seq<string>, vals: seq<string>, paras: set<nat>, bare: set<nat>, mark: string)
    requires |toks| == |vals| && h.slot < |toks| && TokensOf(toks, mark) && Element(vals[h.slot]) && Free(lit, mark)
    ensures Quiet(lit, Shown(h, toks, vals, paras, bare) + rest, mark)
  {
    hide Free, Quiet, Element, Tokens, PrefixFree;
    ShownStart(h, toks, vals, paras, bare, mark);
    QuietText(lit, Shown(h, toks, vals, paras, bare) + rest, mark);
  }

  /** Replacing a bare token, once its paragraphs are gone. */
  lemma {:induction false} ReplaceBare(
    lits: seq<string>, holes: seq<Hole>, toks: seq<string>, vals: seq<string>, paras: set<nat>, bare: set<nat>, mark: string, k: nat)
    requires Fits(lits, holes, toks, vals) && Clean(lits, holes, vals, mark) && TokensOf(toks, mark)
    requires k < |toks| && k in paras && k !in bare
    ensures toks[k] != ""
    ensures ReplaceAll(Html(lits, holes, toks, vals, paras, bare), toks[k], vals[k]) == Html(lits, holes, toks, vals, paras, bare + {k})
    decreases |holes|
  {
    hide Free, Quiet, Element, Tokens, PrefixFree, Shown, ReplaceAll, Html;
    TokenLetters(toks, mark, k);
    var pat, sub := toks[k], vals[k];
    if holes == [] {
      QuietText(lits[0], "", mark);
      QuietForLonger(lits[0], "", mark, pat);
      FreeWhole(lits[0], pat);
      ReplaceNothing(lits[0], pat, sub);
      NoHoles(lits, toks, vals, paras, bare);
      NoHoles(lits, toks, vals, paras, bare + {k});
    } else {
      HtmlStep(lits, holes, toks, vals, paras, bare);
      HtmlStep(lits, holes, toks, vals, paras, bare + {k});
      CleanTail(lits, holes, vals, mark);
      var rest := Html(lits[1..], holes[1..], toks, vals, paras, bare);
      ReplaceBare(lits[1..], holes[1..], toks, vals, paras, bare, mark, k);
      LiteralQuiet(lits[0], holes[0], rest, toks, vals, paras, bare, mark);
      var shown, next := Shown(holes[0], toks, vals, paras, bare), Shown(holes[0], toks, vals, paras, bare + {k});
      QuietForLonger(lits[0], shown + rest, mark, pat);
      BareAtHole(holes[0], rest, toks, vals, paras, bare, mark, k);
      ReplaceAtHole(lits[0], shown, next, rest, pat, sub);
    }
  }

  lemma NoHoles(lits: seq<string>, toks: seq<string>, vals: seq<string>, paras: set<nat>, bare: set<nat>)
    requires Fits(lits, [], toks, vals)
    ensures Html(lits, [], toks, vals, paras, bare) == lits[0]
  {
  }

  lemma FreeWhole(a: string, pat: string)
    requires Quiet(a, "", pat) && pat != ""
    ensures Free(a, pat)
  {
    assert a + "" == a;
  }

  lemma BareAtHole(h: Hole, rest: string, toks: seq<string>, vals: seq<string>, paras: set<nat>, bare: set<nat>, mark: string, k: nat)
    requires |toks| == |vals| && h.slot < |toks| && TokensOf(toks, mark) && k < |toks| && k in paras && k !in bare && toks[k] != ""
    requires Free(vals[h.slot], mark) && Element(vals[h.slot])
    ensures ReplaceAll(Shown(h, toks, vals, paras, bare) + rest, toks[k], vals[k])
         == Shown(h, toks, vals, paras, bare + {k}) + ReplaceAll(rest, toks[k], vals[k])
  {
    hide Free, Quiet, Element, Tokens, PrefixFree, ReplaceAll, Paragraph;
    var j := h.slot;
    TokenLetters(toks, mark, k);
    var shown := Shown(h, toks, vals, paras, bare);
    if !h.alone && j == k {
      ReplaceHit(toks[k], rest, vals[k]);
    } else {
      if h.alone && j !in paras {
        QuietParagraph(toks, mark, j, k, rest);
      } else if !h.alone && j !in bare {
        QuietToken(toks, mark, j, k, rest);
      } else {
        QuietElement(vals[j], rest, mark);
        QuietForLonger(vals[j], rest, mark, toks[k]);
      }
      ReplaceSkips(shown, rest, toks[k], vals[k]);
    }
  }

  // ---------------------------------------------------------------- paragraphs

  /** The text after a hole does not close a paragraph unless the literal does. */
  lemma RestCloses(lits: seq<string>, holes: seq<Hole>, toks: seq<string>, vals: seq<string>, paras: set<nat>, bare: set<nat>, mark: string)
    requires Fits(lits, holes, toks, vals) && Clean(lits, holes, vals, mark) && TokensOf(toks, mark)
    ensures CLOSE <= Html(lits, holes, toks, vals, paras, bare) ==> CLOSE <= lits[0]
  {
    hide Free, Tokens, PrefixFree, Shown;
    if holes != [] {
      HtmlStep(lits, holes, toks, vals, paras, bare);
      ShownStart(holes[0], toks, vals, paras, bare, mark);
      var shown, rest := Shown(holes[0], toks, vals, paras, bare), Html(lits[1..], holes[1..], toks, vals, paras, bare);
      var text := lits[0] + shown + rest;
      assert text == Html(lits, holes, toks, vals, paras, bare);
      assert text[|lits[0]|] == shown[0] && text[|lits[0]| + 1] == shown[1];
      assert CLOSE <= text ==> text[0] == '<' && text[1] == '/' && text[2] == 'p' && text[3] == '>';
      if |lits[0]| >= 4 { assert text[..4] == lits[0][..4]; }
    }
  }

  /** A paragraph token is not found at a position in the literal before a hole. */
  lemma LiteralNotParagraph(
    lits: seq<string>, holes: seq<Hole>, toks: seq<string>, vals: seq<string>, paras: set<nat>, bare: set<nat>, mark: string, k: nat)
    requires Fits(lits, holes, toks, vals) && holes != [] && Clean(lits, holes, vals, mark) && TokensOf(toks, mark) && k < |toks|
    ensures Quiet(lits[0], Html(lits, holes, toks, vals, paras, bare)[|lits[0]|..], Paragraph(toks[k]))
  {
    hide Free, Tokens, PrefixFree, Shown, Element, Html;
    var h, lit, pat := holes[0], lits[0], Paragraph(toks[k]);
    HtmlStep(lits, holes, toks, vals, paras, bare);
    CleanTail(lits, holes, vals, mark);
    RestCloses(lits[1..], holes[1..], toks, vals, paras, bare, mark);
    ShownStart(h, toks, vals, paras, bare, mark);
    var shown, rest := Shown(h, toks, vals, paras, bare), Html(lits[1..], holes[1..], toks, vals, paras, bare);
    var text := lit + (shown + rest);
    assert Html(lits, holes, toks, vals, paras, bare)[|lit|..] == shown + rest;
    LiteralQuiet(lit, h, rest, toks, vals, paras, bare, mark);
    TokenLetters(toks, mark, k);
    forall i | 0 <= i < |lit| ensures !(pat <= text[i..]) {
      ParagraphNeedsMark(text, i, toks[k], mark);
      assert i + 3 < |lit| ==> !(mark <= text[i + 3..]);
      LiteralEnds(lit, shown + rest, i, toks[k]);
      OpensAtEnd(lit, shown + rest, i, toks[k]);
      if i + 3 == |lit| && pat <= text[i..] {
        TokenAfterOpen(lit, h, rest, toks, vals, paras, bare, mark, k);
      }
    }
  }

  lemma ParagraphNeedsMark(text: string, i: nat, token: string, mark: string)
    requires i < |text| && mark <= token
    ensures Paragraph(token) <= text[i..] ==> i + 3 <= |text| && mark <= text[i + 3..] && token + CLOSE <= text[i + 3..]
  {
    if Paragraph(token) <= text[i..] {
      assert text[i..][3..] == text[i + 3..];
      assert text[i..][..|Paragraph(token)|][3..] == token + CLOSE;
      assert (token + CLOSE)[..|mark|] == mark;
      assert text[i + 3..][..|token + CLOSE|] == token + CLOSE;
    }
  }

  lemma ParagraphStart(text: string, i: nat, token: string)
    requires i < |text|
    ensures Paragraph(token) <= text[i..] ==> i + 3 <= |text| && text[i] == '<' && text[i + 1] == 'p' && text[i + 2] == '>'
  {
    if Paragraph(token) <= text[i..] {
      var p := Paragraph(token);
      assert p[0] == '<' && p[1] == 'p' && p[2] == '>';
      assert text[i..][0] == p[0] && text[i..][1] == p[1] && text[i..][2] == p[2];
    }
  }

  /** An opening tag cannot lie half in the literal and half in what follows it. */
  lemma LiteralEnds(lit: string, after: string, i: nat, token: string)
    requires i < |lit| && after != "" && after[0] != 'p' && after[0] != '>'
    ensures Paragraph(token) <= (lit + after)[i..] ==> i + 3 <= |lit|
  {
    ParagraphStart(lit + after, i, token);
    assert (lit + after)[|lit|] == after[0];
  }

  lemma OpensAtEnd(lit: string, after: string, i: nat, token: string)
    requires i < |lit|
    ensures i + 3 == |lit| && Paragraph(token) <= (lit + after)[i..] ==> HasSuffix(lit, OPEN)
  {
    ParagraphStart(lit + after, i, token);
    if i + 3 == |lit| && Paragraph(token) <= (lit + after)[i..] {
      assert lit[i] == '<' && lit[i + 1] == 'p' && lit[i + 2] == '>';
      assert lit[|lit| - 3..] == OPEN;
    }
  }

  /** If the token stands right after an opening tag at the end of the literal, it is a bare hole that is not closed
      as a paragraph. */
  lemma TokenAfterOpen(
    lit: string, h: Hole, rest: string, toks: seq<string>, vals: seq<string>, paras: set<nat>, bare: set<nat>, mark: string, k: nat)
    requires |toks| == |vals| && h.slot < |toks| && TokensOf(toks, mark) && Element(vals[h.slot]) && k < |toks|
    requires toks[k] + CLOSE <= Shown(h, toks, vals, paras, bare) + rest
    ensures !h.alone && h.slot == k && CLOSE <= rest
  {
    hide Tokens, Element, Shown;
    ShownStart(h, toks, vals, paras, bare, mark);
    TokenLetters(toks, mark, k);
    var shown := Shown(h, toks, vals, paras, bare);
    var text := shown + rest;
    assert text[0] == toks[k][0] == mark[0];
    assert shown == toks[h.slot];
    assert toks[k] <= text by { assert text[..|toks[k]|] == (toks[k] + CLOSE)[..|toks[k]|] == toks[k]; }
    PrefixesOfOne(toks[k], toks[h.slot], rest);
    assert text[|shown|..] == rest && text[..|toks[k] + CLOSE|][|shown|..] == CLOSE;
  }

  lemma QuietForParagraph(a: string, rest: string, token: string)
    requires forall i :: 0 <= i < |a| ==> a[i] != '<'
    ensures Quiet(a, rest, Paragraph(token))
  {
    forall i | 0 <= i < |a| ensures !(Paragraph(token) <= (a + rest)[i..]) {
      assert (a + rest)[i..][0] == a[i];
    }
  }

  lemma OtherParagraphQuiet(toks: seq<string>, mark: string, j: nat, k: nat, rest: string)
    requires TokensOf(toks, mark) && j < |toks| && k < |toks| && j != k
    ensures Quiet(Paragraph(toks[j]), rest, Paragraph(toks[k]))
  {
    hide Tokens, Decimal;
    TokenLetters(toks, mark, j);
    TokenLetters(toks, mark, k);
    var s, pat := Paragraph(toks[j]) + rest, Paragraph(toks[k]);
    forall i | 0 <= i < |Paragraph(toks[j])| ensures !(pat <= s[i..]) {
      if i == 0 {
        ParagraphNeedsMark(s, 0, toks[k], mark);
        assert s[0..] == s && s[3..] == toks[j] + (CLOSE + rest);
        PrefixesOfOne(toks[k], toks[j], CLOSE + rest);
        PrefixOfPrefix(toks[k], toks[k] + CLOSE, s[3..]);
      } else {
        assert s[i..][0] == s[i];
        assert 3 <= i < 3 + |toks[j]| ==> s[i] == toks[j][i - 3];
        assert i == 3 + |toks[j]| ==> s[i..][1] == s[i + 1] == '/';
      }
    }
  }

  lemma ElementNotParagraph(value: string, rest: string, token: string, mark: string)
    requires GoodMark(mark) && mark <= token && Free(value, mark) && Element(value)
    ensures Quiet(value, rest, Paragraph(token))
  {
    hide Free;
    QuietElement(value, rest, mark);
    var s := value + rest;
    assert s[..|value|] == value;
    forall i | 0 <= i < |value| ensures !(Paragraph(token) <= s[i..]) {
      ParagraphNeedsMark(s, i, token, mark);
      ParagraphStart(s, i, token);
      if i + 3 < |value| {
        assert !(mark <= s[i + 3..]);
      } else if i + 3 == |value| {
        OpensAtEnd(value, rest, i, token);
      } else {
        assert s[|value| - 1] == value[|value| - 1] == '>';
      }
    }
  }

  lemma ParagraphAtHole(h: Hole, rest: string, toks: seq<string>, vals: seq<string>, paras: set<nat>, bare: set<nat>, mark: string, k: nat)
    requires |toks| == |vals| && h.slot < |toks| && TokensOf(toks, mark) && k < |toks| && k !in paras
    requires Free(vals[h.slot], mark) && Element(vals[h.slot])
    ensures ReplaceAll(Shown(h, toks, vals, paras, bare) + rest, Paragraph(toks[k]), vals[k])
         == Shown(h, toks, vals, paras + {k}, bare) + ReplaceAll(rest, Paragraph(toks[k]), vals[k])
  {
    hide Free, Quiet, Element, Tokens, PrefixFree, ReplaceAll;
    var j, pat := h.slot, Paragraph(toks[k]);
    TokenLetters(toks, mark, k);
    TokenLetters(toks, mark, j);
    var shown := Shown(h, toks, vals, paras, bare);
    if h.alone && j == k {
      ReplaceHit(pat, rest, vals[k]);
    } else {
      if h.alone && j !in paras {
        OtherParagraphQuiet(toks, mark, j, k, rest);
      } else if !h.alone && j !in bare {
        QuietForParagraph(toks[j], rest, toks[k]);
      } else {
        ElementNotParagraph(vals[j], rest, toks[k], mark);
      }
      ReplaceSkips(shown, rest, pat, vals[k]);
    }
  }

  lemma {:induction false} ReplaceParagraphs(
    lits: seq<string>, holes: seq<Hole>, toks: seq<string>, vals: seq<string>, paras: set<nat>, bare: set<nat>, mark: string, k: nat)
    requires Fits(lits, holes, toks, vals) && Clean(lits, holes, vals, mark) && TokensOf(toks, mark)
    requires k < |toks| && k !in paras
    ensures ReplaceAll(Html(lits, holes, toks, vals, paras, bare), Paragraph(toks[k]), vals[k])
         == Html(lits, holes, toks, vals, paras + {k}, bare)
    decreases |holes|
  {
    hide Free, Quiet, Element, Tokens, PrefixFree, Shown, ReplaceAll, Html, Paragraph;
    TokenLetters(toks, mark, k);
    var pat, sub := Paragraph(toks[k]), vals[k];
    assert pat != "" by { ParagraphLength(toks[k]); }
    if holes == [] {
      FreeOfParagraph(lits[0], toks[k], mark);
      ReplaceNothing(lits[0], pat, sub);
      NoHoles(lits, toks, vals, paras, bare);
      NoHoles(lits, toks, vals, paras + {k}, bare);
    } else {
      HtmlStep(lits, holes, toks, vals, paras, bare);
      HtmlStep(lits, holes, toks, vals, paras + {k}, bare);
      CleanTail(lits, holes, vals, mark);
      var rest := Html(lits[1..], holes[1..], toks, vals, paras, bare);
      ReplaceParagraphs(lits[1..], holes[1..], toks, vals, paras, bare, mark, k);
      LiteralNotParagraph(lits, holes, toks, vals, paras, bare, mark, k);
      var shown, next := Shown(holes[0], toks, vals, paras, bare), Shown(holes[0], toks, vals, paras + {k}, bare);
      assert (lits[0] + shown + rest)[|lits[0]|..] == shown + rest;
      ParagraphAtHole(holes[0], rest, toks, vals, paras, bare, mark, k);
      ReplaceAtHole(lits[0], shown, next, rest, pat, sub);
    }
  }

  lemma ParagraphLength(token: string)
    ensures |Paragraph(token)| == |token| + 7
  {
  }

  lemma FreeOfParagraph(a: string, token: string, mark: string)
    requires Free(a, mark) && mark <= token
    ensures Free(a, Paragraph(token))
  {
    forall i | 0 <= i <= |a| ensures !(Paragraph(token) <= a[i..]) {
      if i < |a| { ParagraphNeedsMark(a, i, token, mark); }
    }
  }

  // ---------------------------------------------------------------- all tokens

  function RestoreOne(html: string, token: string, value: string): string
    requires token != ""
  {
    ReplaceAll(ReplaceAll(html, Paragraph(token), value), token, value)
  }

  function RestoreInOrder(html: string, toks: seq<string>, vals: seq<string>, order: seq<nat>): string
    requires |toks| == |vals| && forall i :: 0 <= i < |order| ==> order[i] < |toks|
    requires forall i :: 0 <= i < |toks| ==> toks[i] != ""
  {
    if order == [] then html
    else
      var last := order[|order| - 1];
      RestoreOne(RestoreInOrder(html, toks, vals, order[..|order| - 1]), toks[last], vals[last])
  }

  ghost predicate RangeRestores(html: string, toks: seq<string>, vals: seq<string>, out: string)
    requires |toks| == |vals| && forall i :: 0 <= i < |toks| ==> toks[i] != ""
  {
    exists order :: IsOrder(order, |toks|) && out == RestoreInOrder(html, toks, vals, order)
  }

  /** The loop over the map of figures, and the same loop over the map of anchors. */
  method RestoreRange(html: string, values: map<string, string>, ghost toks: seq<string>, ghost vals: seq<string>)
    returns (out: string)
    requires |toks| == |vals| && forall i :: 0 <= i < |toks| ==> toks[i] != ""
    requires forall i, j :: 0 <= i < j < |toks| ==> toks[i] != toks[j]
    requires forall i :: 0 <= i < |toks| ==> toks[i] in values && values[toks[i]] == vals[i]
    requires forall t :: t in values ==> t in toks
    ensures RangeRestores(html, toks, vals, out)
  {
    hide RestoreOne, RestoreInOrder;
    ghost var order: seq<nat> := [];
    out := html;
    NothingRestored(html, toks, vals);
    var todo := values.Keys;
    while todo != {}
      invariant todo <= values.Keys
      invariant forall i :: 0 <= i < |order| ==> order[i] < |toks|
      invariant forall i, j :: 0 <= i < j < |order| ==> order[i] != order[j]
      invariant forall k: nat :: k < |toks| ==> (toks[k] in todo <==> k !in order)
      invariant out == RestoreInOrder(html, toks, vals, order)
    {
      var token :| token in todo;
      ghost var k :| 0 <= k < |toks| && toks[k] == token;
      RestoreNext(html, toks, vals, order, k);
      out := ReplaceAll(out, OPEN + token + CLOSE, values[token]);
      out := ReplaceAll(out, token, values[token]);
      order := order + [k];
      todo := todo - {token};
    }
  }

  lemma NothingRestored(html: string, toks: seq<string>, vals: seq<string>)
    requires |toks| == |vals| && forall i :: 0 <= i < |toks| ==> toks[i] != ""
    ensures RestoreInOrder(html, toks, vals, []) == html
  {
  }

  lemma RestoreNext(html: string, toks: seq<string>, vals: seq<string>, order: seq<nat>, k: nat)
    requires |toks| == |vals| && (forall i :: 0 <= i < |order| ==> order[i] < |toks|) && k < |toks|
    requires forall i :: 0 <= i < |toks| ==> toks[i] != ""
    ensures var before := RestoreInOrder(html, toks, vals, order);
            RestoreInOrder(html, toks, vals, order + [k])
            == ReplaceAll(ReplaceAll(before, OPEN + toks[k] + CLOSE, vals[k]), toks[k], vals[k])
  {
    hide ReplaceAll;
    assert (order + [k])[..|order|] == order;
  }

  ghost function Visited(order: seq<nat>): set<nat> { set k | k in order }

  lemma {:induction false} RestoredSoFar(
    lits: seq<string>, holes: seq<Hole>, toks: seq<string>, vals: seq<string>, mark: string, order: seq<nat>)
    requires Fits(lits, holes, toks, vals) && Clean(lits, holes, vals, mark) && TokensOf(toks, mark)
    requires forall i :: 0 <= i < |order| ==> order[i] < |toks|
    requires forall i, j :: 0 <= i < j < |order| ==> order[i] != order[j]
    requires forall i :: 0 <= i < |toks| ==> toks[i] != ""
    ensures RestoreInOrder(Html(lits, holes, toks, vals, {}, {}), toks, vals, order)
         == Html(lits, holes, toks, vals, Visited(order), Visited(order))
  {
    hide Html, ReplaceAll, Paragraph, Clean, TokensOf, Fits;
    if order == [] {
      assert Visited(order) == {};
    } else {
      var init, k := order[..|order| - 1], order[|order| - 1];
      RestoredSoFar(lits, holes, toks, vals, mark, init);
      var before := Visited(init);
      assert k !in before;
      ReplaceParagraphs(lits, holes, toks, vals, before, before, mark, k);
      ReplaceBare(lits, holes, toks, vals, before + {k}, before, mark, k);
      assert order == init + [k];
      assert Visited(order) == before + {k};
    }
  }

  /** The HTML with every hole filled by its own value. */
  function Restored(lits: seq<string>, holes: seq<Hole>, vals: seq<string>): string
    requires |lits| == |holes| + 1 && forall j :: 0 <= j < |holes| ==> holes[j].slot < |vals|
    decreases |holes|
  {
    if holes == [] then lits[0] else lits[0] + vals[holes[0].slot] + Restored(lits[1..], holes[1..], vals)
  }

  lemma {:induction false} AllRestored(
    lits: seq<string>, holes: seq<Hole>, toks: seq<string>, vals: seq<string>, done: set<nat>)
    requires Fits(lits, holes, toks, vals) && forall k: nat :: k < |toks| ==> k in done
    ensures Html(lits, holes, toks, vals, done, done) == Restored(lits, holes, vals)
    decreases |holes|
  {
    if holes != [] { AllRestored(lits[1..], holes[1..], toks, vals, done); }
  }

  /** Every clean document comes out right, whatever the order. */
  ghost predicate Restores(mark: string, n: nat) {
    forall lits: seq<string>, holes: seq<Hole>, vals: seq<string>, order: seq<nat> ::
      Fits(lits, holes, Tokens(mark, n), vals) && Clean(lits, holes, vals, mark) && IsOrder(order, n)
      ==> RestoresIn(lits, holes, vals, mark, n, order)
  }

  ghost predicate RestoresIn(lits: seq<string>, holes: seq<Hole>, vals: seq<string>, mark: string, n: nat, order: seq<nat>)
    requires Fits(lits, holes, Tokens(mark, n), vals) && IsOrder(order, n)
  {
    TokensNotEmpty(mark, n);
    RestoreInOrder(Html(lits, holes, Tokens(mark, n), vals, {}, {}), Tokens(mark, n), vals, order) == Restored(lits, holes, vals)
  }

  lemma TokensNotEmpty(mark: string, n: nat)
    ensures forall i :: 0 <= i < n ==> Tokens(mark, n)[i] != ""
  {
  }

  lemma RestoresUpToTen(
    lits: seq<string>, holes: seq<Hole>, vals: seq<string>, mark: string, n: nat, order: seq<nat>)
    requires GoodMark(mark) && n <= 10
    requires Fits(lits, holes, Tokens(mark, n), vals) && Clean(lits, holes, vals, mark) && IsOrder(order, n)
    ensures RestoresIn(lits, holes, vals, mark, n, order)
  {
    hide Clean, Html, Restored, RestoreInOrder, PrefixFree;
    TokensNotEmpty(mark, n);
    PrefixFreeUpToTen(mark, n);
    var toks := Tokens(mark, n);
    RestoredSoFar(lits, holes, toks, vals, mark, order);
    forall k: nat | k < n ensures k in Visited(order) { assert k in order; }
    AllRestored(lits, holes, toks, vals, Visited(order));
  }

  // ---------------------------------------------------------------- token ten and beyond

  /** No occurrence of `pat` lies partly in `a` and partly in `b`. */
  ghost predicate Apart(a: string, b: string, pat: string) {
    forall i :: 0 <= i < |a| && i + |pat| > |a| ==> !(pat <= (a + b)[i..])
  }

  lemma {:induction false} ReplaceApart(a: string, b: string, pat: string, sub: string)
    requires pat != "" && Apart(a, b, pat)
    ensures ReplaceAll(a + b, pat, sub) == ReplaceAll(a, pat, sub) + ReplaceAll(b, pat, sub)
    decreases |a|
  {
    var s := a + b;
    if a == "" {
      assert s == b;
    } else if pat <= s {
      assert |pat| <= |a| by { assert s[0..] == s; }
      assert pat <= a by { assert s[..|pat|] == a[..|pat|]; }
      assert s[|pat|..] == a[|pat|..] + b;
      ApartTail(a, b, pat, |pat|);
      ReplaceApart(a[|pat|..], b, pat, sub);
      var first, rest := ReplaceAll(a[|pat|..], pat, sub), ReplaceAll(b, pat, sub);
      assert sub + (first + rest) == (sub + first) + rest;
    } else {
      PrefixExtends(pat, a, b);
      assert s[1..] == a[1..] + b;
      ApartTail(a, b, pat, 1);
      ReplaceApart(a[1..], b, pat, sub);
      var first, rest := ReplaceAll(a[1..], pat, sub), ReplaceAll(b, pat, sub);
      assert [a[0]] + (first + rest) == ([a[0]] + first) + rest;
    }
  }

  lemma PrefixExtends(pat: string, a: string, b: string)
    ensures pat <= a ==> pat <= a + b
  {
    if pat <= a { assert (a + b)[..|pat|] == a[..|pat|]; }
  }

  lemma ApartTail(a: string, b: string, pat: string, k: nat)
    requires Apart(a, b, pat) && k <= |a|
    ensures Apart(a[k..], b, pat)
  {
    forall i | 0 <= i < |a[k..]| && i + |pat| > |a[k..]| ensures !(pat <= (a[k..] + b)[i..]) {
      assert (a[k..] + b)[i..] == (a + b)[k + i..];
    }
  }

  lemma TokenApart(a: string, b: string, token: string)
    requires b != "" && (forall i :: 0 < i < |token| ==> token[i] != b[0])
    ensures Apart(a, b, token)
  {
    forall i | 0 <= i < |a| && i + |token| > |a| ensures !(token <= (a + b)[i..]) {
      assert (a + b)[i..][|a| - i] == b[0];
    }
  }

  /** A tag that closes nothing begins no closing tag of a paragraph. */
  lemma ParagraphApart(a: string, b: string, token: string)
    requires |b| >= 2 && b[0] == '<' && b[1] != '/' && (forall i :: 0 <= i < |token| ==> token[i] != '<')
    ensures Apart(a, b, Paragraph(token))
  {
    var pat := Paragraph(token);
    forall i | 0 <= i < |a| && i + |pat| > |a| ensures !(pat <= (a + b)[i..]) {
      var p := |a| - i;
      assert (a + b)[i..][p] == b[0] && (a + b)[i..][p + 1] == b[1];
      assert pat[p] == '<' ==> p == |token| + 3 && pat[p + 1] == '/';
    }
  }

  /** What stands where a token from ten on was taken for its first digit: the wrong value, in a paragraph if the
      token was alone. */
  function Wrong(alone: bool, value: string): string { (if alone then OPEN else "") + value }

  lemma WrongStart(alone: bool, value: string)
    requires Element(value)
    ensures var x := Wrong(alone, value); |x| >= 2 && x[0] == '<' && x[1] != '/'
  {
  }

  lemma WrongQuiet(alone: bool, value: string, rest: string, toks: seq<string>, mark: string, k: nat)
    requires GoodMark(mark) && toks == Tokens(mark, |toks|) && k < |toks| && Free(value, mark) && Element(value)
    ensures Quiet(Wrong(alone, value), rest, toks[k]) && Quiet(Wrong(alone, value), rest, Paragraph(toks[k]))
  {
    hide Tokens, Free;
    TokenLetters(toks, mark, k);
    QuietElement(value, rest, mark);
    QuietForLonger(value, rest, mark, toks[k]);
    ElementNotParagraph(value, rest, toks[k], mark);
    if alone {
      var s := Wrong(alone, value) + rest;
      assert s == OPEN + (value + rest);
      assert forall i :: 3 <= i < |Wrong(alone, value)| ==> s[i..] == (value + rest)[i - 3..];
      forall i | 0 <= i < 3 ensures !(toks[k] <= s[i..]) && !(Paragraph(toks[k]) <= s[i..]) {
        assert s[i..][0] == OPEN[i];
        ParagraphNeedsMark(s, i, toks[k], mark);
        assert s[3..][0] == value[0] == '<';
      }
    } else {
      assert Wrong(alone, value) == value;
    }
  }

  /** Later tokens change what stands before the wrong value and what stands after it, and no more. */
  lemma RestoreAround(a: string, x: string, rest: string, toks: seq<string>, vals: seq<string>, mark: string, k: nat, alone: bool, value: string)
    requires GoodMark(mark) && toks == Tokens(mark, |toks|) && |vals| == |toks| && k < |toks| && toks[k] != ""
    requires Free(value, mark) && Element(value) && x == Wrong(alone, value)
    ensures RestoreOne(a + (x + rest), toks[k], vals[k]) == RestoreOne(a, toks[k], vals[k]) + (x + RestoreOne(rest, toks[k], vals[k]))
  {
    hide Tokens, Free, Element, ReplaceAll, Quiet, Apart, Wrong;
    TokenLetters(toks, mark, k);
    WrongStart(alone, value);
    var par, tok, v := Paragraph(toks[k]), toks[k], vals[k];
    ParagraphLength(tok);
    ParagraphApart(a, x + rest, tok);
    ReplaceApart(a, x + rest, par, v);
    WrongQuiet(alone, value, rest, toks, mark, k);
    ReplaceSkips(x, rest, par, v);
    var a', rest' := ReplaceAll(a, par, v), ReplaceAll(rest, par, v);
    TokenApart(a', x + rest', tok);
    ReplaceApart(a', x + rest', tok, v);
    WrongQuiet(alone, value, rest', toks, mark, k);
    ReplaceSkips(x, rest', tok, v);
  }

  lemma {:induction false} RestoreAllAround(
    a: string, x: string, rest: string, toks: seq<string>, vals: seq<string>, mark: string, order: seq<nat>, alone: bool, value: string)
    requires GoodMark(mark) && toks == Tokens(mark, |toks|) && |vals| == |toks|
    requires (forall i :: 0 <= i < |order| ==> order[i] < |toks|) && (forall i :: 0 <= i < |toks| ==> toks[i] != "")
    requires Free(value, mark) && Element(value) && x == Wrong(alone, value)
    ensures RestoreInOrder(a + (x + rest), toks, vals, order)
         == RestoreInOrder(a, toks, vals, order) + (x + RestoreInOrder(rest, toks, vals, order))
  {
    hide Tokens, Free, Element, RestoreOne, Wrong;
    if order != [] {
      var init, k := order[..|order| - 1], order[|order| - 1];
      RestoreAllAround(a, x, rest, toks, vals, mark, init, alone, value);
      RestoreAround(RestoreInOrder(a, toks, vals, init), x, RestoreInOrder(rest, toks, vals, init), toks, vals, mark, k, alone, value);
    }
  }

  lemma {:induction false} RestoreSplit(html: string, toks: seq<string>, vals: seq<string>, first: seq<nat>, then_: seq<nat>)
    requires |toks| == |vals| && (forall i :: 0 <= i < |toks| ==> toks[i] != "")
    requires (forall i :: 0 <= i < |first| ==> first[i] < |toks|) && (forall i :: 0 <= i < |then_| ==> then_[i] < |toks|)
    ensures RestoreInOrder(html, toks, vals, first + then_)
         == RestoreInOrder(RestoreInOrder(html, toks, vals, first), toks, vals, then_)
    decreases |then_|
  {
    hide RestoreOne;
    if then_ == [] {
      assert first + then_ == first;
    } else {
      var init := then_[..|then_| - 1];
      assert (first + then_)[..|first + then_| - 1] == first + init;
      RestoreSplit(html, toks, vals, first, init);
    }
  }

  // ---------------------------------------------------------------- the first hole from ten on

  /** The document up to hole `j`, the hole, and what follows it. */
  lemma {:induction false} HtmlAt(lits: seq<string>, holes: seq<Hole>, toks: seq<string>, vals: seq<string>, paras: set<nat>, bare: set<nat>, j: nat)
    requires Fits(lits, holes, toks, vals) && j < |holes|
    ensures Fits(lits[..j + 1], holes[..j], toks, vals) && Fits(lits[j + 1..], holes[j + 1..], toks, vals)
    ensures Html(lits, holes, toks, vals, paras, bare)
         == Html(lits[..j + 1], holes[..j], toks, vals, paras, bare)
            + (Shown(holes[j], toks, vals, paras, bare) + Html(lits[j + 1..], holes[j + 1..], toks, vals, paras, bare))
    decreases j
  {
    hide Shown;
    if j > 0 {
      HtmlAt(lits[1..], holes[1..], toks, vals, paras, bare, j - 1);
      assert lits[1..][..j] == lits[..j + 1][1..] && holes[1..][..j - 1] == holes[..j][1..];
      assert lits[1..][j..] == lits[j + 1..] && holes[1..][j..] == holes[j + 1..];
    }
  }

  lemma {:induction false} RestoredAt(lits: seq<string>, holes: seq<Hole>, vals: seq<string>, j: nat)
    requires |lits| == |holes| + 1 && (forall i :: 0 <= i < |holes| ==> holes[i].slot < |vals|) && j < |holes|
    ensures Restored(lits, holes, vals)
         == Restored(lits[..j + 1], holes[..j], vals) + (vals[holes[j].slot] + Restored(lits[j + 1..], holes[j + 1..], vals))
    decreases j
  {
    if j > 0 {
      RestoredAt(lits[1..], holes[1..], vals, j - 1);
      assert lits[1..][..j] == lits[..j + 1][1..] && holes[1..][..j - 1] == holes[..j][1..];
      assert lits[1..][j..] == lits[j + 1..] && holes[1..][j..] == holes[j + 1..];
    }
  }

  function LeadingDigit(n: nat): (d: nat)
    ensures d < 10 && d <= n
  {
    if n < 10 then n else LeadingDigit(n / 10)
  }

  lemma {:induction false} DecimalLeads(n: nat)
    ensures Decimal(LeadingDigit(n)) <= Decimal(n)
    ensures n >= 10 ==> |Decimal(n)| > 1
    ensures |Decimal(LeadingDigit(n))| == 1
  {
    if n >= 10 { DecimalLeads(n / 10); }
  }

  lemma LeadingToken(toks: seq<string>, mark: string, s: nat) returns (more: string)
    requires GoodMark(mark) && toks == Tokens(mark, |toks|) && 10 <= s < |toks|
    ensures more != "" && IsDigit(more[0]) && toks[s] == toks[LeadingDigit(s)] + more
  {
    hide Decimal, LeadingDigit;
    var d := LeadingDigit(s);
    DecimalLeads(s);
    more := Decimal(s)[1..];
    assert Decimal(s) == Decimal(d) + more;
    assert more[0] == Decimal(s)[1];
    assert mark + (Decimal(d) + more) == (mark + Decimal(d)) + more;
  }

  /** The paragraphs of a token are not found where it is the beginning of a longer one. */
  lemma NoParagraphAtLonger(a: string, alone: bool, token: string, rem: string, mark: string)
    requires GoodMark(mark) && rem != "" && IsDigit(rem[0]) && token != "" && token[0] == mark[0]
    requires forall i :: 0 <= i < |token| ==> token[i] != '<'
    requires forall i :: 0 < i < |token| ==> token[i] != mark[0]
    ensures var pre := if alone then OPEN else "";
            Apart(a, pre + token + rem, Paragraph(token)) && Quiet(pre + token, rem, Paragraph(token))
  {
    var pre := if alone then OPEN else "";
    var b, par := pre + token + rem, Paragraph(token);
    assert b[|pre| + |token|] == rem[0];
    assert par[3 + |token|] == '<' && par[3] == mark[0];
    assert forall i :: 0 <= i < |par| && par[i] == mark[0] ==> i == 3;
    forall i | 0 <= i < |a| && i + |par| > |a| ensures !(par <= (a + b)[i..]) {
      var p := |a| - i;
      assert (a + b)[i..][p] == b[0] && (a + b)[i..][p + 1] == b[1];
      assert p == 3 && !alone ==> (a + b)[i..][3 + |token|] == b[|token|];
      assert par[p] == '<' ==> p == |token| + 3 && par[p + 1] == '/';
    }
    forall i | 0 <= i < |pre + token| ensures !(par <= b[i..]) {
      assert b[i..][0] == b[i];
      assert i == 0 && alone ==> b[0..][3 + |token|] == rem[0];
      assert i >= |pre| ==> b[i] == token[i - |pre|];
    }
  }

  /** Replacing a digit first leaves its value and the other digits where the longer token stood. */
  lemma DigitTakesOver(a: string, h: Hole, rest: string, toks: seq<string>, vals: seq<string>, mark: string) returns (rest': string)
    requires GoodMark(mark) && toks == Tokens(mark, |toks|) && |vals| == |toks| && 10 <= h.slot < |toks|
    ensures var d := LeadingDigit(h.slot);
            && toks[d] != ""
            && RestoreOne(a + (Shown(h, toks, vals, {}, {}) + rest), toks[d], vals[d])
               == RestoreOne(a, toks[d], vals[d]) + (Wrong(h.alone, vals[d]) + rest')
  {
    hide Tokens, LeadingDigit, ReplaceAll, Quiet, Apart, Paragraph;
    var d := LeadingDigit(h.slot);
    var more := LeadingToken(toks, mark, h.slot);
    TokenLetters(toks, mark, d);
    var tok, v, par := toks[d], vals[d], Paragraph(toks[d]);
    ParagraphLength(tok);
    var pre := if h.alone then OPEN else "";
    var rem := more + (if h.alone then CLOSE else "") + rest;
    ParagraphIs(toks[h.slot]);
    assert Shown(h, toks, vals, {}, {}) + rest == (pre + tok) + rem;
    NoParagraphAtLonger(a, h.alone, tok, rem, mark);
    ReplaceApart(a, (pre + tok) + rem, par, v);
    ReplaceSkips(pre + tok, rem, par, v);
    var a1, rem1 := ReplaceAll(a, par, v), ReplaceAll(rem, par, v);
    assert (pre + tok) + rem1 == pre + (tok + rem1);
    TokenApart(a1, pre + (tok + rem1), tok);
    ReplaceApart(a1, pre + (tok + rem1), tok, v);
    QuietTag(pre, tok + rem1, tok, mark);
    ReplaceSkips(pre, tok + rem1, tok, v);
    ReplaceHit(tok, rem1, v);
    rest' := ReplaceAll(rem1, tok, v);
    assert pre + (v + rest') == Wrong(h.alone, v) + rest';
  }

  lemma ParagraphIs(token: string)
    ensures Paragraph(token) == OPEN + token + CLOSE
  {
  }

  lemma QuietTag(pre: string, rest: string, token: string, mark: string)
    requires GoodMark(mark) && (pre == "" || pre == OPEN) && token != "" && token[0] == mark[0]
    ensures Quiet(pre, rest, token)
  {
    forall i | 0 <= i < |pre| ensures !(token <= (pre + rest)[i..]) {
      assert (pre + rest)[i..][0] == OPEN[i];
    }
  }

  /** Only the tokens and values of its holes matter to a document. */
  lemma {:induction false} HtmlFewer(lits: seq<string>, holes: seq<Hole>, toks: seq<string>, vals: seq<string>, m: nat)
    requires Fits(lits, holes, toks, vals) && m <= |toks| && forall i :: 0 <= i < |holes| ==> holes[i].slot < m
    ensures Html(lits, holes, toks[..m], vals[..m], {}, {}) == Html(lits, holes, toks, vals, {}, {})
    ensures Restored(lits, holes, vals[..m]) == Restored(lits, holes, vals)
    decreases |holes|
  {
    if holes != [] { HtmlFewer(lits[1..], holes[1..], toks, vals, m); }
  }

  lemma {:induction false} RestoreFewer(html: string, toks: seq<string>, vals: seq<string>, order: seq<nat>, m: nat)
    requires |toks| == |vals| && m <= |toks| && (forall i :: 0 <= i < |order| ==> order[i] < m)
    requires forall i :: 0 <= i < |toks| ==> toks[i] != ""
    ensures RestoreInOrder(html, toks[..m], vals[..m], order) == RestoreInOrder(html, toks, vals, order)
  {
    hide RestoreOne;
    if order != [] { RestoreFewer(html, toks, vals, order[..|order| - 1], m); }
  }

  lemma {:induction false} FreeStays(html: string, toks: seq<string>, vals: seq<string>, mark: string, order: seq<nat>)
    requires |toks| == |vals| && (forall i :: 0 <= i < |order| ==> order[i] < |toks|)
    requires (forall i :: 0 <= i < |toks| ==> toks[i] != "" && mark <= toks[i]) && Free(html, mark)
    ensures RestoreInOrder(html, toks, vals, order) == html
  {
    hide Free, RestoreOne;
    if order != [] {
      FreeStays(html, toks, vals, mark, order[..|order| - 1]);
      var k := order[|order| - 1];
      KeepsFree(html, toks[k], vals[k], mark);
    }
  }

  lemma KeepsFree(html: string, token: string, value: string, mark: string)
    requires Free(html, mark) && mark <= token && token != ""
    ensures RestoreOne(html, token, value) == html
  {
    hide ReplaceAll, Free;
    FreeOfParagraph(html, token, mark);
    ParagraphLength(token);
    ReplaceNothing(html, Paragraph(token), value);
    FreeOfLonger(html, mark, token);
    ReplaceNothing(html, token, value);
  }

  lemma {:induction false} RestoredFree(lits: seq<string>, holes: seq<Hole>, vals: seq<string>, mark: string)
    requires GoodMark(mark) && |lits| == |holes| + 1 && (forall i :: 0 <= i < |holes| ==> holes[i].slot < |vals|)
    requires Clean(lits, holes, vals, mark)
    ensures Free(Restored(lits, holes, vals), mark)
    decreases |holes|
  {
    hide Free, Element, Quiet;
    if holes != [] {
      CleanTail(lits, holes, vals, mark);
      RestoredFree(lits[1..], holes[1..], vals, mark);
      var value, rest := vals[holes[0].slot], Restored(lits[1..], holes[1..], vals);
      QuietElement(value, rest, mark);
      FreeBefore(value, rest, mark);
      ElementStart(value, rest);
      QuietText(lits[0], value + rest, mark);
      FreeBefore(lits[0], value + rest, mark);
      assert lits[0] + (value + rest) == lits[0] + value + rest;
    }
  }

  lemma ElementStart(value: string, rest: string)
    requires Element(value)
    ensures value + rest != "" && (value + rest)[0] == '<'
  {
  }

  lemma FreeBefore(a: string, rest: string, mark: string)
    requires Quiet(a, rest, mark) && Free(rest, mark)
    ensures Free(a + rest, mark)
  {
    var s := a + rest;
    forall i | 0 <= i <= |s| ensures !(mark <= s[i..]) {
      if i >= |a| { assert s[i..] == rest[i - |a|..]; }
    }
  }

  /** Two texts that differ before either ends. */
  predicate Differ(a: string, b: string) { !(a <= b) && !(b <= a) }

  /** The value that takes the place of a token from ten on is not the beginning of the right one, nor the other way
      round. For a token alone in its paragraph it is enough that the right value opens no paragraph. */
  predicate Tells(h: Hole, vals: seq<string>)
    requires h.slot < |vals|
  {
    Differ(Wrong(h.alone, vals[LeadingDigit(h.slot)]), vals[h.slot])
  }

  lemma AloneTells(h: Hole, vals: seq<string>)
    requires h.slot < |vals| && h.alone && |vals[h.slot]| >= 3 && !(OPEN <= vals[h.slot])
    ensures Tells(h, vals)
  {
    var x, v := Wrong(true, vals[LeadingDigit(h.slot)]), vals[h.slot];
    assert x[..3] == OPEN;
  }

  lemma CleanPart(lits: seq<string>, holes: seq<Hole>, vals: seq<string>, mark: string, j: nat, m: nat)
    requires |lits| == |holes| + 1 && Clean(lits, holes, vals, mark) && j <= |holes| && m <= |vals|
    ensures Clean(lits[..j + 1], holes[..j], vals[..m], mark)
  {
    hide Free, Element;
  }

  function DigitsFirst(d: nat, n: nat): (order: seq<nat>)
    requires d < 10 <= n
    ensures IsOrder(order, n) && |order| == n && order[..10] == FirstThenRest(d, 10) && order[0] == d
  {
    var digits, others := FirstThenRest(d, 10), seq(n - 10, i requires 0 <= i < n - 10 => (10 + i) as nat);
    var order := digits + others;
    assert order[..10] == digits;
    assert forall k: nat :: k < n ==> k in order by {
      forall k: nat | k < n ensures k in order {
        if k < 10 { assert k in digits; } else { assert order[k] == k; }
      }
    }
    order
  }

  /** What comes out when the leading digit of the first hole from ten on is replaced first. */
  lemma WrongValueStays(
    lits: seq<string>, holes: seq<Hole>, vals: seq<string>, mark: string, n: nat, j: nat, order: seq<nat>) returns (rest: string)
    requires GoodMark(mark) && Fits(lits, holes, Tokens(mark, n), vals) && Clean(lits, holes, vals, mark)
    requires j < |holes| && holes[j].slot >= 10 && forall i :: 0 <= i < j ==> holes[i].slot < 10
    requires order == DigitsFirst(LeadingDigit(holes[j].slot), n)
    ensures forall i :: 0 <= i < n ==> Tokens(mark, n)[i] != ""
    ensures RestoreInOrder(Html(lits, holes, Tokens(mark, n), vals, {}, {}), Tokens(mark, n), vals, order)
         == Restored(lits[..j + 1], holes[..j], vals) + (Wrong(holes[j].alone, vals[LeadingDigit(holes[j].slot)]) + rest)
  {
    hide Html, Shown, Restored, RestoreInOrder, RestoreOne, Clean, Wrong, IsOrder, Free, Element, LeadingDigit;
    var toks, h := Tokens(mark, n), holes[j];
    var d := LeadingDigit(h.slot);
    TokensNotEmpty(mark, n);
    var ls, hs, value := lits[..j + 1], holes[..j], vals[d];
    var before, after := Html(ls, hs, toks, vals, {}, {}), Html(lits[j + 1..], holes[j + 1..], toks, vals, {}, {});
    HtmlAt(lits, holes, toks, vals, {}, {}, j);
    var rest1 := DigitTakesOver(before, h, after, toks, vals, mark);
    assert order == [d] + order[1..];
    OneRestored(before, toks, vals, d);
    OneRestored(Html(lits, holes, toks, vals, {}, {}), toks, vals, d);
    RestoreSplit(Html(lits, holes, toks, vals, {}, {}), toks, vals, [d], order[1..]);
    RestoreSplit(before, toks, vals, [d], order[1..]);
    ValueClean(lits, holes, vals, mark, d);
    RestoreAllAround(RestoreOne(before, toks[d], value), Wrong(h.alone, value), rest1, toks, vals, mark, order[1..], h.alone, value);
    rest := RestoreInOrder(rest1, toks, vals, order[1..]);
    PartRestored(ls, hs, vals, mark, n, order) by { CleanPart(lits, holes, vals, mark, j, |vals|); assert vals[..|vals|] == vals; }
  }

  lemma ValueClean(lits: seq<string>, holes: seq<Hole>, vals: seq<string>, mark: string, d: nat)
    requires |lits| == |holes| + 1 && Clean(lits, holes, vals, mark) && d < |vals|
    ensures Free(vals[d], mark) && Element(vals[d])
  {
  }

  lemma OneRestored(html: string, toks: seq<string>, vals: seq<string>, d: nat)
    requires |toks| == |vals| && d < |toks| && forall i :: 0 <= i < |toks| ==> toks[i] != ""
    ensures RestoreInOrder(html, toks, vals, [d]) == RestoreOne(html, toks[d], vals[d])
  {
    hide RestoreOne;
    NothingRestored(html, toks, vals);
    assert [d][..0] == [];
  }

  /** Before the first hole from ten on everything comes out right. */
  lemma PartRestored(lits: seq<string>, holes: seq<Hole>, vals: seq<string>, mark: string, n: nat, order: seq<nat>)
    requires GoodMark(mark) && n >= 10 && Fits(lits, holes, Tokens(mark, n), vals) && Clean(lits, holes, vals, mark)
    requires forall i :: 0 <= i < |holes| ==> holes[i].slot < 10
    requires IsOrder(order, n) && |order| == n && IsOrder(order[..10], 10)
    ensures forall i :: 0 <= i < n ==> Tokens(mark, n)[i] != ""
    ensures RestoreInOrder(Html(lits, holes, Tokens(mark, n), vals, {}, {}), Tokens(mark, n), vals, order)
         == Restored(lits, holes, vals)
  {
    hide Html, Restored, RestoreInOrder, RestoreOne, Clean, Free, Element;
    var toks, digits := Tokens(mark, n), order[..10];
    TokensNotEmpty(mark, n);
    TokensNotEmpty(mark, 10);
    assert toks[..10] == Tokens(mark, 10);
    var html := Html(lits, holes, toks, vals, {}, {});
    HtmlFewer(lits, holes, toks, vals, 10);
    RestoreFewer(html, toks, vals, digits, 10);
    FewerClean(lits, holes, vals, mark, 10);
    RestoresUpToTen(lits, holes, vals[..10], mark, 10, digits);
    assert order == digits + order[10..];
    RestoreSplit(html, toks, vals, digits, order[10..]);
    RestoredFree(lits, holes, vals, mark);
    forall i | 0 <= i < n ensures mark <= toks[i] { assert toks[i][..|mark|] == mark; }
    FreeStays(Restored(lits, holes, vals), toks, vals, mark, order[10..]);
  }

  lemma FewerClean(lits: seq<string>, holes: seq<Hole>, vals: seq<string>, mark: string, m: nat)
    requires |lits| == |holes| + 1 && Clean(lits, holes, vals, mark) && m <= |vals|
    ensures Clean(lits, holes, vals[..m], mark)
  {
    CleanPart(lits, holes, vals, mark, |holes|, m);
    assert lits[..|holes| + 1] == lits && holes[..|holes|] == holes;
  }

  lemma DifferentTails(a: string, b: string, c: string, x: string, y: string)
    requires Differ(b, c)
    ensures a + (b + x) != a + (c + y)
  {
    if a + (b + x) == a + (c + y) {
      assert (a + (b + x))[|a|..] == b + x && (a + (c + y))[|a|..] == c + y;
      PrefixesOfOne(b, c, y);
    }
  }

  /** With more than ten tokens, a clean document that shows one from ten on comes out wrong in some order. */
  lemma BeyondTenBreaks(lits: seq<string>, holes: seq<Hole>, vals: seq<string>, mark: string, n: nat, j: nat) returns (order: seq<nat>)
    requires GoodMark(mark) && Fits(lits, holes, Tokens(mark, n), vals) && Clean(lits, holes, vals, mark)
    requires j < |holes| && holes[j].slot >= 10 && (forall i :: 0 <= i < j ==> holes[i].slot < 10) && Tells(holes[j], vals)
    ensures IsOrder(order, n) && !RestoresIn(lits, holes, vals, mark, n, order)
  {
    hide Html, Restored, RestoreInOrder, Clean, Wrong, Differ, LeadingDigit;
    order := DigitsFirst(LeadingDigit(holes[j].slot), n);
    var rest := WrongValueStays(lits, holes, vals, mark, n, j, order);
    RestoredAt(lits, holes, vals, j);
    HtmlFewer(lits[..j + 1], holes[..j], Tokens(mark, n), vals, n);
    var value := vals[LeadingDigit(holes[j].slot)];
    DifferentTails(Restored(lits[..j + 1], holes[..j], vals), Wrong(holes[j].alone, value), vals[holes[j].slot],
                   rest, Restored(lits[j + 1..], holes[j + 1..], vals));
  }

  const BOLD := "<b>"

  lemma BoldIsClean(mark: string)
    requires GoodMark(mark)
    ensures Free(BOLD, mark) && Free("", mark) && Element(BOLD)
  {
    forall i | 0 <= i <= 3 ensures !(mark <= BOLD[i..]) {
      assert i < 3 ==> BOLD[i..][0] == BOLD[i];
    }
  }

  /** Putting figures, or equation anchors, back is sure to work exactly while there are at most ten of them. */
  lemma RestoresIffAtMostTen(mark: string, n: nat)
    requires GoodMark(mark)
    ensures Restores(mark, n) <==> n <= 10
  {
    hide RestoresIn, Free, Element, LeadingDigit;
    if n <= 10 {
      forall lits: seq<string>, holes: seq<Hole>, vals: seq<string>, order: seq<nat> |
        Fits(lits, holes, Tokens(mark, n), vals) && Clean(lits, holes, vals, mark) && IsOrder(order, n)
        ensures RestoresIn(lits, holes, vals, mark, n, order)
      {
        RestoresUpToTen(lits, holes, vals, mark, n, order);
      }
    } else {
      var lits: seq<string>, holes, vals: seq<string> := ["", ""], [Hole(10, true)], seq(n, _ => BOLD);
      BoldIsClean(mark);
      AloneTells(holes[0], vals);
      var order := BeyondTenBreaks(lits, holes, vals, mark, n, 0);
    }
  }
}
