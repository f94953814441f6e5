/** Hiding math behind tokens before the Markdown conversion, and putting it back afterwards. */
module MathProtection {
  import opened Text
  import opened Substitution
  import opened MarkdownLines
  import opened Entities

  // ---------------------------------------------------------------- escapes

  /** How many backslashes stand directly before `index`. */
  function BackslashRun(text: string, index: nat): (n: nat)
    requires index <= |text|
    ensures n <= index
  {
    if index > 0 && text[index - 1] == '\\' then 1 + BackslashRun(text, index - 1) else 0
  }

  predicate EscapedAt(text: string, index: nat)
    requires index <= |text|
  {
    BackslashRun(text, index) % 2 == 1
  }

  method IsEscapedAt(text: string, index: nat) returns (escaped: bool)
    requires index <= |text|
    ensures escaped == EscapedAt(text, index)
  {
    var backslashes := 0;
    var i := index as int - 1;
    while i >= 0 && text[i] == '\\'
      invariant -1 <= i < index
      invariant BackslashRun(text, index) == backslashes + BackslashRun(text, i + 1)
    {
      backslashes := backslashes + 1;
      i := i - 1;
    }
    return backslashes % 2 == 1;
  }

  // ---------------------------------------------------------------- spans

  /** An unescaped closing delimiter. A single dollar does not close where a double dollar starts. */
  predicate Closer(text: string, i: nat, delimiter: string) {
    At(text, i, delimiter) && !EscapedAt(text, i) && (delimiter == "$" ==> !At(text, i, "$$"))
  }

  function FindCloser(text: string, start: nat, delimiter: string): (r: Option<nat>)
    ensures r.Some? ==> start <= r.value && Closer(text, r.value, delimiter)
    ensures r.Some? ==> forall i :: start <= i < r.value ==> !Closer(text, i, delimiter)
    ensures r.None? ==> forall i :: start <= i ==> !Closer(text, i, delimiter)
    decreases |text| - start
  {
    if start + |delimiter| > |text| then None
    else if Closer(text, start, delimiter) then Some(start)
    else if start == |text| then None
    else FindCloser(text, start + 1, delimiter)
  }

  method FindMathEnd(text: string, start: nat, delimiter: string) returns (r: int)
    requires delimiter == "$$" || delimiter == "\\]" || delimiter == "\\)"
    ensures r == match FindCloser(text, start, delimiter) case None => -1 case Some(i) => i
  {
    var i := start;
    while i <= |text| - |delimiter|
      invariant FindCloser(text, start, delimiter) == FindCloser(text, i, delimiter)
    {
      if delimiter <= text[i..] {
        assert At(text, i, delimiter);
        var escaped := IsEscapedAt(text, i);
        if !escaped { return i; }
      }
      i := i + 1;
    }
    return -1;
  }

  method FindInlineDollarEnd(text: string, start: nat) returns (r: int)
    ensures r == match FindCloser(text, start, "$") case None => -1 case Some(i) => i
  {
    var i := start;
    while i < |text|
      invariant FindCloser(text, start, "$") == FindCloser(text, i, "$")
    {
      assert At(text, i, "$") <==> text[i] == '$';
      assert At(text, i, "$$") <==> "$$" <= text[i..];
      var escaped := IsEscapedAt(text, i);
      if text[i] == '$' && !escaped && !("$$" <= text[i..]) { return i; }
      i := i + 1;
    }
    return -1;
  }

  /** What a math span that opens at `i` is delimited by; a backslash bracket opens even when escaped. */
  function Opens(text: string, i: nat): Option<(string, string)>
    requires i < |text|
  {
    if At(text, i, "$$") && !EscapedAt(text, i) then Some(("$$", "$$"))
    else if At(text, i, "\\[") then Some(("\\[", "\\]"))
    else if At(text, i, "\\(") then Some(("\\(", "\\)"))
    else if text[i] == '$' && !EscapedAt(text, i) then Some(("$", "$"))
    else None
  }

  /** Where the math span that starts at `i` ends, if one does. */
  function SpanEnd(text: string, i: nat): (r: Option<nat>)
    requires i < |text|
    ensures r.Some? ==> i < r.value <= |text|
  {
    match Opens(text, i)
    case None => None
    case Some(d) =>
      match FindCloser(text, i + |d.0|, d.1)
      case None => None
      case Some(c) => Some(c + |d.1|)
  }

  /** The span from `s` to `e` opens with a delimiter and ends at the first valid closer of that delimiter. */
  ghost predicate EndsAtFirstCloser(text: string, s: nat, e: nat)
    requires s < |text|
  {
    match Opens(text, s)
    case None => false
    case Some((open, close)) =>
      && s + |open| + |close| <= e
      && Closer(text, e - |close|, close)
      && forall i :: s + |open| <= i < e - |close| ==> !Closer(text, i, close)
  }

  lemma SpanEndsAtFirstCloser(text: string, s: nat, e: nat)
    requires s < |text|
    ensures SpanEnd(text, s) == Some(e) <==> EndsAtFirstCloser(text, s, e)
  {
    hide Closer;
    match Opens(text, s) {
      case None =>
      case Some((open, close)) =>
        match FindCloser(text, s + |open|, close) {
          case None =>
          case Some(c) =>
            if EndsAtFirstCloser(text, s, e) {
              var c' := e - |close|;
              assert !(c < c') && !(c' < c);
            }
        }
    }
  }

  // ---------------------------------------------------------------- one chunk of text

  /** A text cut at its math spans: `lits[k]` stands before `spans[k]`, the last literal after the last span. */
  datatype Template = Template(lits: seq<string>, spans: seq<string>) {
    predicate Valid() { |lits| == |spans| + 1 }

    function Source(): string
      requires Valid()
    {
      Fill(lits, spans)
    }

    function AddText(more: string): (t: Template)
      requires Valid()
      ensures t.Valid()
    {
      Template(lits[|lits| - 1 := lits[|lits| - 1] + more], spans)
    }

    function AddSpan(span: string): (t: Template)
      requires Valid()
      ensures t.Valid()
    {
      Template(lits + [""], spans + [span])
    }
  }

  function ProtectFrom(text: string, i: nat, done: Template): (t: Template)
    requires i <= |text| && done.Valid()
    ensures t.Valid()
    decreases |text| - i
  {
    if i == |text| then done
    else match SpanEnd(text, i)
      case Some(e) => ProtectFrom(text, e, done.AddSpan(text[i..e]))
      case None => ProtectFrom(text, i + 1, done.AddText([text[i]]))
  }

  /** Cutting loses nothing and reorders nothing. */
  lemma {:induction false} ProtectKeepsSource(text: string, i: nat, done: Template)
    requires i <= |text| && done.Valid()
    ensures ProtectFrom(text, i, done).Source() == done.Source() + text[i..]
    decreases |text| - i
  {
    hide SpanEnd;
    if i == |text| {
    } else {
      match SpanEnd(text, i) {
        case Some(e) =>
          FillAddHole(done.lits, done.spans, text[i..e]);
          ProtectKeepsSource(text, e, done.AddSpan(text[i..e]));
          assert text[i..] == text[i..e] + text[e..];
        case None =>
          FillExtendLast(done.lits, done.spans, [text[i]]);
          ProtectKeepsSource(text, i + 1, done.AddText([text[i]]));
          assert text[i..] == [text[i]] + text[i + 1..];
      }
    }
  }

  /** The places of the spans found from `i` on. */
  function SpansFrom(text: string, i: nat): (places: seq<(nat, nat)>)
    requires i <= |text|
    ensures forall k :: 0 <= k < |places| ==> i <= places[k].0 <= places[k].1 <= |text|
    decreases |text| - i
  {
    if i == |text| then []
    else match SpanEnd(text, i)
      case Some(e) => [(i, e)] + SpansFrom(text, e)
      case None => SpansFrom(text, i + 1)
  }

  function Cuts(text: string, places: seq<(nat, nat)>): seq<string>
    requires forall k :: 0 <= k < |places| ==> places[k].0 <= places[k].1 <= |text|
  {
    seq(|places|, k requires 0 <= k < |places| => text[places[k].0..places[k].1])
  }

  /** Ordered, disjoint spans that each end at their first valid closer, with no span left unprotected. */
  ghost predicate Segmentation(text: string, i: nat, places: seq<(nat, nat)>) {
    && (forall k :: 0 <= k < |places| ==>
          i <= places[k].0 < places[k].1 <= |text| && EndsAtFirstCloser(text, places[k].0, places[k].1))
    && (forall k :: 0 < k < |places| ==> places[k - 1].1 <= places[k].0)
    && (forall p :: i <= p < |text| && SpanEnd(text, p).Some? ==>
          exists k :: 0 <= k < |places| && places[k].0 <= p < places[k].1)
  }

  lemma SegmentationCons(text: string, i: nat, e: nat, rest: seq<(nat, nat)>)
    requires i < e <= |text| && EndsAtFirstCloser(text, i, e) && Segmentation(text, e, rest)
    ensures Segmentation(text, i, [(i, e)] + rest)
  {
    hide SpanEnd, EndsAtFirstCloser;
    var places := [(i, e)] + rest;
    forall k | 0 < k < |places| ensures places[k - 1].1 <= places[k].0 {
      assert places[k] == rest[k - 1];
    }
    forall p | i <= p < |text| && SpanEnd(text, p).Some?
      ensures exists k :: 0 <= k < |places| && places[k].0 <= p < places[k].1
    {
      if p < e {
        assert places[0].0 <= p < places[0].1;
      } else {
        var k :| 0 <= k < |rest| && rest[k].0 <= p < rest[k].1;
        assert places[k + 1] == rest[k];
      }
    }
  }

  lemma {:induction false} SpansFromSegment(text: string, i: nat)
    requires i <= |text|
    ensures Segmentation(text, i, SpansFrom(text, i))
    decreases |text| - i
  {
    hide SpanEnd, EndsAtFirstCloser, Segmentation;
    if i == |text| {
      NothingToSegment(text);
    } else {
      match SpanEnd(text, i) {
        case Some(e) =>
          SpansFromSegment(text, e);
          SpanEndsAtFirstCloser(text, i, e);
          SegmentationCons(text, i, e, SpansFrom(text, e));
        case None =>
          SpansFromSegment(text, i + 1);
          SegmentationSkip(text, i, SpansFrom(text, i + 1));
      }
    }
  }

  lemma NothingToSegment(text: string)
    ensures Segmentation(text, |text|, [])
  {
  }

  lemma SegmentationSkip(text: string, i: nat, places: seq<(nat, nat)>)
    requires i < |text| && SpanEnd(text, i).None? && Segmentation(text, i + 1, places)
    ensures Segmentation(text, i, places)
  {
    hide SpanEnd, EndsAtFirstCloser;
  }

  lemma NoCuts(text: string, spans: seq<string>)
    ensures spans + Cuts(text, []) == spans
  {
  }

  lemma CutsCons(text: string, i: nat, e: nat, rest: seq<(nat, nat)>, spans: seq<string>)
    requires i <= e <= |text| && forall k :: 0 <= k < |rest| ==> rest[k].0 <= rest[k].1 <= |text|
    ensures spans + Cuts(text, [(i, e)] + rest) == (spans + [text[i..e]]) + Cuts(text, rest)
  {
    assert Cuts(text, [(i, e)] + rest) == [text[i..e]] + Cuts(text, rest);
  }

  lemma {:induction false} ProtectCutsSpans(text: string, i: nat, done: Template)
    requires i <= |text| && done.Valid()
    ensures ProtectFrom(text, i, done).spans == done.spans + Cuts(text, SpansFrom(text, i))
    decreases |text| - i
  {
    hide SpanEnd, Cuts;
    if i == |text| {
      NoCuts(text, done.spans);
    } else {
      match SpanEnd(text, i) {
        case Some(e) =>
          ProtectCutsSpans(text, e, done.AddSpan(text[i..e]));
          CutsCons(text, i, e, SpansFrom(text, e), done.spans);
        case None =>
          ProtectCutsSpans(text, i + 1, done.AddText([text[i]]));
      }
    }
  }

  /** What the protection of one text finds: its spans are a segmentation of that text. */
  lemma ProtectionSegments(text: string)
    ensures var places := SpansFrom(text, 0);
            Segmentation(text, 0, places) && ProtectFrom(text, 0, Template([""], [])).spans == Cuts(text, places)
  {
    SpansFromSegment(text, 0);
    ProtectCutsSpans(text, 0, Template([""], []));
  }

  // ---------------------------------------------------------------- the whole document

  /** A document is a sequence of fenced lines, left as they are, and chunks of text between them. */
  datatype Block = Fenced(line: string) | Chunk(text: string)

  function Flush(chunk: string): seq<Block> {
    if chunk == "" then [] else [Chunk(chunk)]
  }

  function TrimmedLine(line: string): string {
    TrimSpace(if HasSuffix(line, "\n") then line[..|line| - 1] else line)
  }

  function Blocks(lines: seq<string>, chunk: string, fence: string): seq<Block>
    decreases |lines|
  {
    if lines == [] then Flush(chunk)
    else
      var trimmed := TrimmedLine(lines[0]);
      if FenceMarker(trimmed) != "" then
        Flush(chunk) + [Fenced(lines[0])] + Blocks(lines[1..], "", NextFence(fence, trimmed))
      else if fence != "" then
        [Fenced(lines[0])] + Blocks(lines[1..], chunk, fence)
      else Blocks(lines[1..], chunk + lines[0], fence)
  }

  function BlockText(block: Block): string {
    match block case Fenced(line) => line case Chunk(text) => text
  }

  function BlockTexts(blocks: seq<Block>): string {
    if blocks == [] then "" else BlockText(blocks[0]) + BlockTexts(blocks[1..])
  }

  lemma {:induction false} BlockTextsAppend(a: seq<Block>, b: seq<Block>)
    ensures BlockTexts(a + b) == BlockTexts(a) + BlockTexts(b)
  {
    if a == [] {
      assert a + b == b;
    } else {
      assert (a + b)[1..] == a[1..] + b;
      BlockTextsAppend(a[1..], b);
    }
  }

  lemma BlockTextsCons(a: seq<Block>, middle: Block, b: seq<Block>)
    ensures BlockTexts(a + [middle] + b) == BlockTexts(a) + BlockText(middle) + BlockTexts(b)
  {
    assert a + [middle] + b == a + ([middle] + b);
    BlockTextsAppend(a, [middle] + b);
    assert ([middle] + b)[1..] == b;
  }

  /** The blocks are the document, in order. */
  lemma {:induction false} BlocksKeepText(lines: seq<string>, chunk: string, fence: string)
    requires fence != "" ==> chunk == ""
    ensures BlockTexts(Blocks(lines, chunk, fence)) == chunk + Concat(lines)
    decreases |lines|
  {
    hide FenceMarker, TrimmedLine, NextFence, BlockTexts, Flush;
    FlushText(chunk);
    if lines == [] {
      assert chunk + Concat(lines) == chunk;
    } else {
      var line, trimmed, below := lines[0], TrimmedLine(lines[0]), Concat(lines[1..]);
      if FenceMarker(trimmed) != "" {
        var rest := Blocks(lines[1..], "", NextFence(fence, trimmed));
        BlocksKeepText(lines[1..], "", NextFence(fence, trimmed));
        BlockTextsCons(Flush(chunk), Fenced(line), rest);
        assert chunk + line + ("" + below) == chunk + (line + below);
      } else if fence != "" {
        var rest := Blocks(lines[1..], chunk, fence);
        BlocksKeepText(lines[1..], chunk, fence);
        BlockTextsCons([], Fenced(line), rest);
        FlushText("");
        assert [] + [Fenced(line)] + rest == [Fenced(line)] + rest;
        assert "" + line + ("" + below) == "" + (line + below);
      } else {
        BlocksKeepText(lines[1..], chunk + line, fence);
        assert chunk + line + below == chunk + (line + below);
      }
    }
  }

  lemma FlushText(chunk: string)
    ensures BlockTexts(Flush(chunk)) == chunk && BlockTexts([]) == ""
  {
    if chunk != "" { assert BlockTexts([Chunk(chunk)][1..]) == ""; }
  }

  function ProtectBlocks(blocks: seq<Block>, done: Template): (t: Template)
    requires done.Valid()
    ensures t.Valid()
    decreases |blocks|
  {
    if blocks == [] then done
    else match blocks[0]
      case Fenced(line) => ProtectBlocks(blocks[1..], done.AddText(line))
      case Chunk(text) => ProtectBlocks(blocks[1..], ProtectFrom(text, 0, done))
  }

  lemma {:induction false} ProtectBlocksKeepsSource(blocks: seq<Block>, done: Template)
    requires done.Valid()
    ensures ProtectBlocks(blocks, done).Source() == done.Source() + BlockTexts(blocks)
    decreases |blocks|
  {
    hide ProtectFrom;
    if blocks != [] {
      match blocks[0] {
        case Fenced(line) =>
          FillExtendLast(done.lits, done.spans, line);
          ProtectBlocksKeepsSource(blocks[1..], done.AddText(line));
        case Chunk(text) =>
          ProtectKeepsSource(text, 0, done);
          assert text[0..] == text;
          ProtectBlocksKeepsSource(blocks[1..], ProtectFrom(text, 0, done));
      }
    }
  }

  const NOTHING := Template([""], [])

  function ProtectDocument(source: string): (t: Template)
    ensures t.Valid()
  {
    ProtectBlocks(Blocks(SplitAfter(source), "", ""), NOTHING)
  }

  lemma DocumentKeepsSource(source: string)
    ensures ProtectDocument(source).Source() == source
  {
    hide ProtectBlocks, Blocks;
    BlocksKeepText(SplitAfter(source), "", "");
    ProtectBlocksKeepsSource(Blocks(SplitAfter(source), "", ""), NOTHING);
  }

  // ---------------------------------------------------------------- tokens

  const MARK := "POSTIZER_MATH_"

  function Token(k: nat): string { MARK + Padded(k, 6) }

  function Tokens(n: nat): (toks: seq<string>)
    ensures |toks| == n && forall k :: 0 <= k < n ==> toks[k] == Token(k)
  {
    seq(n, k requires k >= 0 => Token(k))
  }

  lemma TokenInjective(j: nat, k: nat)
    ensures Token(j) == Token(k) ==> j == k
  {
    PaddedRoundTrip(j, 6);
    PaddedRoundTrip(k, 6);
    assert Token(j)[|MARK|..] == Padded(j, 6) && Token(k)[|MARK|..] == Padded(k, 6);
  }

  lemma MillionDigits()
    ensures Pow10(6) == 1_000_000 && Pow10(5) == 100_000
  {
    assert Pow10(1) == 10;
    assert Pow10(3) == 10 * Pow10(2);
    assert Pow10(5) == 10 * Pow10(4);
  }

  /** Six padded digits keep the tokens apart exactly up to a million of them. */
  lemma TokensPrefixFree(n: nat)
    ensures PrefixFree(Tokens(n)) <==> n <= 1_000_000
  {
    var toks := Tokens(n);
    MillionDigits();
    if n <= 1_000_000 {
      forall i, j | 0 <= i < n && 0 <= j < n && i != j ensures !(toks[i] <= toks[j]) {
        DecimalLength(i, 6);
        DecimalLength(j, 6);
        TokenInjective(i, j);
        assert |toks[i]| == |toks[j]|;
      }
    } else {
      DecimalLength(100_000, 6);
      DecimalLength(100_000, 5);
      assert Decimal(1_000_000) == Decimal(100_000) + [Digit(0)];
      assert toks[100_000] <= toks[1_000_000];
    }
  }

  // ---------------------------------------------------------------- escaping

  /** `html.EscapeString`. */
  function EscapeChar(c: char): string {
    if c == '&' then "&amp;"
    else if c == '\'' then "&#39;"
    else if c == '<' then "&lt;"
    else if c == '>' then "&gt;"
    else if c == '\"' then "&#34;"
    else [c]
  }

  function Escape(s: string): string {
    if s == "" then "" else EscapeChar(s[0]) + Escape(s[1..])
  }

  lemma EscapedCharReads(c: char, rest: string)
    ensures Decode(EscapeChar(c) + rest) == [c] + Decode(rest)
    ensures NoMarkup(EscapeChar(c))
  {
    EntityFirst(EscapeChar(c), c, rest);
  }

  /** An escaped text is read as the text it was made from, and holds no markup. */
  lemma {:induction false} EscapedReads(s: string)
    ensures Decode(Escape(s)) == s
    ensures NoMarkup(Escape(s))
  {
    hide Decode, EscapeChar;
    if s == "" {
      NothingRead();
    } else {
      EscapedReads(s[1..]);
      EscapedCharReads(s[0], Escape(s[1..]));
      assert s == [s[0]] + s[1..];
    }
  }

  lemma NothingRead()
    ensures Decode("") == ""
  {
  }

  predicate Plain(s: string) {
    forall i :: 0 <= i < |s| ==> EscapeChar(s[i]) == [s[i]]
  }

  lemma {:induction false} EscapePlain(s: string)
    requires Plain(s)
    ensures Escape(s) == s
  {
    if s != "" {
      EscapePlain(s[1..]);
    }
  }

  lemma {:induction false} EscapeLast(s: string)
    requires s != "" && Plain([s[|s| - 1]])
    ensures Escape(s) != "" && Escape(s)[|Escape(s)| - 1] == s[|s| - 1]
  {
    assert [s[|s| - 1]][0] == s[|s| - 1];
    if |s| == 1 {
      assert Escape(s[1..]) == "";
    } else {
      EscapeLast(s[1..]);
    }
  }

  /** Escaping cannot produce a word that was not there. */
  lemma {:induction false} EscapeKeepsPrefix(word: string, s: string)
    requires forall i :: 0 <= i < |word| ==> word[i] != '&'
    ensures word <= Escape(s) ==> word <= s
  {
    if word != "" && s != "" && word <= Escape(s) {
      assert Escape(s)[0] == word[0] == EscapeChar(s[0])[0] == s[0];
      assert Escape(s)[1..] == Escape(s[1..]);
      assert word[1..] <= Escape(s)[1..];
      EscapeKeepsPrefix(word[1..], s[1..]);
      assert word == [word[0]] + word[1..] && s == [s[0]] + s[1..];
    }
  }

  lemma FreeTail(s: string, word: string)
    requires s != "" && Free(s, word)
    ensures Free(s[1..], word)
  {
    forall i | 0 <= i <= |s| - 1 ensures !(word <= s[1..][i..]) {
      assert s[1..][i..] == s[i + 1..];
    }
  }

  lemma {:induction false} EscapeKeepsFree(s: string)
    requires Free(s, MARK)
    ensures Free(Escape(s), MARK)
  {
    var t := Escape(s);
    if s != "" {
      FreeTail(s, MARK);
      EscapeKeepsFree(s[1..]);
      var head := EscapeChar(s[0]);
      forall i | 0 <= i <= |t| ensures !(MARK <= t[i..]) {
        if i >= |head| {
          assert t[i..] == Escape(s[1..])[i - |head|..];
        } else if |head| > 1 {
          assert t[i..][0] == head[i] != 'P';
        } else {
          EscapeKeepsPrefix(MARK, s);
          assert t[0..] == t && s[0..] == s;
        }
      }
    }
  }

  function Escapes(spans: seq<string>): (vals: seq<string>)
    ensures |vals| == |spans| && forall k :: 0 <= k < |spans| ==> vals[k] == Escape(spans[k])
  {
    seq(|spans|, k requires 0 <= k < |spans| => Escape(spans[k]))
  }

  /** The stored values as they are read, in order. */
  function Decoded(vals: seq<string>): (texts: seq<string>)
    ensures |texts| == |vals| && forall k :: 0 <= k < |vals| ==> texts[k] == Decode(vals[k])
  {
    seq(|vals|, k requires 0 <= k < |vals| => Decode(vals[k]))
  }

  /** The page reads as the source: its values hold no markup, and with each of them read it is the source. */
  ghost predicate ReadsWith(html: string, source: string, lits: seq<string>, vals: seq<string>) {
    && |lits| == |vals| + 1
    && html == Fill(lits, vals)
    && source == Fill(lits, Decoded(vals))
    && forall k :: 0 <= k < |vals| ==> NoMarkup(vals[k])
  }

  lemma EscapesRead(spans: seq<string>)
    ensures Decoded(Escapes(spans)) == spans
    ensures forall k :: 0 <= k < |spans| ==> NoMarkup(Escapes(spans)[k])
  {
    hide Escape, Decode, NoMarkup;
    forall k | 0 <= k < |spans| ensures Decode(Escape(spans[k])) == spans[k] && NoMarkup(Escape(spans[k])) {
      EscapedReads(spans[k]);
    }
  }

  // ---------------------------------------------------------------- putting the math back

  /** What every span looks like: it starts with a dollar or a backslash and ends with a closing delimiter. */
  predicate Delimited(span: string) {
    && span != ""
    && (span[0] == '$' || span[0] == '\\')
    && (var last := span[|span| - 1]; last == '$' || last == ']' || last == ')')
  }

  predicate AllDelimited(spans: seq<string>) {
    forall k :: 0 <= k < |spans| ==> Delimited(spans[k])
  }

  lemma SpanDelimited(text: string, s: nat, e: nat)
    requires s < |text| && SpanEnd(text, s) == Some(e)
    ensures Delimited(text[s..e])
  {
    match Opens(text, s) {
      case Some((open, close)) =>
        assert text[s] == text[s..s + |open|][0] == open[0] by { assert At(text, s, open) || text[s] == '$'; }
        var c := e - |close|;
        assert At(text, c, close);
        assert text[e - 1] == text[c..c + |close|][|close| - 1];
    }
  }

  lemma {:induction false} ProtectDelimits(text: string, i: nat, done: Template)
    requires i <= |text| && done.Valid() && AllDelimited(done.spans)
    ensures AllDelimited(ProtectFrom(text, i, done).spans)
    decreases |text| - i
  {
    hide SpanEnd, Delimited;
    if i < |text| {
      match SpanEnd(text, i) {
        case Some(e) =>
          SpanDelimited(text, i, e);
          ProtectDelimits(text, e, done.AddSpan(text[i..e]));
        case None =>
          ProtectDelimits(text, i + 1, done.AddText([text[i]]));
      }
    }
  }

  lemma {:induction false} BlocksDelimit(blocks: seq<Block>, done: Template)
    requires done.Valid() && AllDelimited(done.spans)
    ensures AllDelimited(ProtectBlocks(blocks, done).spans)
    decreases |blocks|
  {
    hide ProtectFrom;
    if blocks != [] {
      match blocks[0] {
        case Fenced(line) => BlocksDelimit(blocks[1..], done.AddText(line));
        case Chunk(text) =>
          ProtectDelimits(text, 0, done);
          BlocksDelimit(blocks[1..], ProtectFrom(text, 0, done));
      }
    }
  }

  lemma FreeParts(a: string, b: string, word: string)
    requires word != "" && Free(a + b, word)
    ensures Free(a, word) && Free(b, word)
  {
    forall i | 0 <= i <= |a| ensures !(word <= a[i..]) {
      assert (a + b)[i..] == a[i..] + b;
    }
    forall i | 0 <= i <= |b| ensures !(word <= b[i..]) {
      assert (a + b)[|a| + i..] == b[i..];
    }
  }

  lemma {:induction false} FillParts(lits: seq<string>, fillings: seq<string>, word: string)
    requires |lits| == |fillings| + 1 && word != "" && Free(Fill(lits, fillings), word)
    ensures forall k :: 0 <= k < |lits| ==> Free(lits[k], word)
    ensures forall k :: 0 <= k < |fillings| ==> Free(fillings[k], word)
    decreases |fillings|
  {
    hide Free;
    if fillings != [] {
      FreeParts(lits[0] + fillings[0], Fill(lits[1..], fillings[1..]), word);
      FreeParts(lits[0], fillings[0], word);
      FillParts(lits[1..], fillings[1..], word);
      assert lits == [lits[0]] + lits[1..] && fillings == [fillings[0]] + fillings[1..];
    }
  }

  /** A literal is quiet before the end of the text, a token or a delimited value. */
  lemma QuietLiteral(a: string, rest: string)
    requires Free(a, MARK)
    requires rest == "" || rest[0] !in MARK[1..]
    ensures Quiet(a, rest, MARK)
  {
    forall i | 0 <= i < |a| ensures !(MARK <= (a + rest)[i..]) {
      var tail := (a + rest)[i..];
      if i + |MARK| <= |a| {
        assert tail == a[i..] + rest;
      } else if rest != "" {
        assert tail[|a| - i] == rest[0];
        assert MARK[|a| - i] == MARK[1..][|a| - i - 1];
      }
    }
  }

  lemma QuietValue(v: string, rest: string)
    requires Free(v, MARK) && v != "" && v[|v| - 1] !in MARK
    ensures Quiet(v, rest, MARK)
  {
    forall i | 0 <= i < |v| ensures !(MARK <= (v + rest)[i..]) {
      var tail := (v + rest)[i..];
      assert tail == v[i..] + rest;
      assert tail[|v| - 1 - i] == v[|v| - 1];
    }
  }

  lemma QuietTokenTail(k: nat, rest: string)
    ensures Quiet(Token(k)[1..], rest, MARK)
  {
    var a := Token(k)[1..];
    forall i | 0 <= i < |a| ensures !(MARK <= (a + rest)[i..]) {
      var tail := (a + rest)[i..];
      assert tail[0] == a[i] == Token(k)[i + 1];
      if i + 1 < |MARK| {
        assert a[i] == MARK[i + 1] != 'P';
      } else {
        assert a[i] == Padded(k, 6)[i + 1 - |MARK|];
      }
    }
  }

  /** The hole of span `k` shows token `k`. */
  function Slots(n: nat): (slots: seq<nat>)
    ensures |slots| == n && forall k :: 0 <= k < n ==> slots[k] == k
  {
    seq(n, k requires k >= 0 => k)
  }

  lemma EscapedSpan(span: string)
    requires Delimited(span) && Free(span, MARK)
    ensures var v := Escape(span);
            v != "" && v[0] == span[0] && v[|v| - 1] == span[|span| - 1] && Free(v, MARK)
  {
    EscapeKeepsFree(span);
    EscapeLast(span);
  }

  lemma {:induction false} TemplateAnchored(t: Template, done: set<nat>, k: nat)
    requires t.Valid() && k <= |t.spans| && AllDelimited(t.spans)
    requires forall j :: 0 <= j < |t.lits| ==> Free(t.lits[j], MARK)
    requires forall j :: 0 <= j < |t.spans| ==> Free(t.spans[j], MARK)
    ensures Anchored(t.lits[k..], Slots(|t.spans|)[k..], Tokens(|t.spans|), Escapes(t.spans), done, MARK)
    decreases |t.spans| - k
  {
    hide Free, Quiet, Delimited, Escape, Token;
    var n := |t.spans|;
    var lits, slots, toks, vals := t.lits[k..], Slots(n)[k..], Tokens(n), Escapes(t.spans);
    if k == n {
      QuietLiteral(lits[0], "");
    } else {
      TemplateAnchored(t, done, k + 1);
      assert lits[1..] == t.lits[k + 1..] && slots[1..] == Slots(n)[k + 1..];
      var rest := Filled(lits[1..], slots[1..], toks, vals, done);
      EscapedSpan(t.spans[k]);
      TokenStart(k);
      DelimitedStart(t.spans[k]);
      QuietLiteral(lits[0], (if k in done then vals[k] else toks[k]) + rest);
      QuietValue(vals[k], rest);
      QuietTokenTail(k, rest);
    }
  }

  lemma TokenStart(k: nat)
    ensures Token(k) != "" && Token(k)[0] == 'P' && 'P' !in MARK[1..]
  {
  }

  lemma DelimitedStart(span: string)
    requires Delimited(span)
    ensures span[0] !in MARK[1..] && span[|span| - 1] !in MARK
  {
  }

  /** The text handed to the Markdown converter. */
  function ProtectedText(t: Template): string
    requires t.Valid()
  {
    Fill(t.lits, Tokens(|t.spans|))
  }

  /** Substituting the tokens back, in any order, gives the source with every math span escaped. */
  lemma RestoreAnyOrder(source: string, order: seq<nat>)
    requires Free(source, MARK)
    requires var t := ProtectDocument(source); |t.spans| <= 1_000_000 && IsOrder(order, |t.spans|)
    ensures var t := ProtectDocument(source);
            ReplaceInOrder(ProtectedText(t), Tokens(|t.spans|), Escapes(t.spans), order) == Fill(t.lits, Escapes(t.spans))
  {
    hide ProtectBlocks, Blocks, Anchored, Free;
    var t := ProtectDocument(source);
    var n := |t.spans|;
    DocumentKeepsSource(source);
    FillParts(t.lits, t.spans, MARK);
    BlocksDelimit(Blocks(SplitAfter(source), "", ""), NOTHING);
    TokensPrefixFree(n);
    forall done: set<nat> ensures Anchored(t.lits, Slots(n), Tokens(n), Escapes(t.spans), done, MARK) {
      TemplateAnchored(t, done, 0);
      assert t.lits[0..] == t.lits && Slots(n)[0..] == Slots(n);
    }
    ReplaceAllTokens(t.lits, Slots(n), Tokens(n), Escapes(t.spans), MARK, order);
    assert Chosen(Slots(n), Tokens(n)) == Tokens(n) && Chosen(Slots(n), Escapes(t.spans)) == Escapes(t.spans);
  }

  /** With nothing to escape the round trip is the identity. */
  lemma RestorePlain(source: string, order: seq<nat>)
    requires Free(source, MARK) && Plain(source)
    requires var t := ProtectDocument(source); |t.spans| <= 1_000_000 && IsOrder(order, |t.spans|)
    ensures var t := ProtectDocument(source);
            ReplaceInOrder(ProtectedText(t), Tokens(|t.spans|), Escapes(t.spans), order) == source
  {
    hide ProtectBlocks, Blocks;
    var t := ProtectDocument(source);
    RestoreAnyOrder(source, order);
    DocumentKeepsSource(source);
    FillPlain(t.lits, t.spans);
    forall k | 0 <= k < |t.spans| ensures Escape(t.spans[k]) == t.spans[k] {
      EscapePlain(t.spans[k]);
    }
    assert Escapes(t.spans) == t.spans;
  }

  lemma {:induction false} FillPlain(lits: seq<string>, fillings: seq<string>)
    requires |lits| == |fillings| + 1 && Plain(Fill(lits, fillings))
    ensures forall k :: 0 <= k < |fillings| ==> Plain(fillings[k])
    decreases |fillings|
  {
    if fillings != [] {
      var whole, rest := Fill(lits, fillings), Fill(lits[1..], fillings[1..]);
      forall i | 0 <= i < |fillings[0]| ensures EscapeChar(fillings[0][i]) == [fillings[0][i]] {
        assert whole[|lits[0]| + i] == fillings[0][i];
      }
      forall i | 0 <= i < |rest| ensures EscapeChar(rest[i]) == [rest[i]] {
        assert whole[|lits[0]| + |fillings[0]| + i] == rest[i];
      }
      FillPlain(lits[1..], fillings[1..]);
      assert fillings == [fillings[0]] + fillings[1..];
    }
  }

  // ---------------------------------------------------------------- the code

  /** The map from token to escaped span after the given spans were hidden. */
  function Replacements(spans: seq<string>): map<string, string>
    decreases |spans|
  {
    if spans == [] then map[]
    else
      var last := |spans| - 1;
      Replacements(spans[..last])[Token(last) := Escape(spans[last])]
  }

  lemma ReplacementsAre(spans: seq<string>)
    ensures |Replacements(spans)| == |spans|
    ensures forall k :: 0 <= k < |spans| ==>
              Token(k) in Replacements(spans) && Replacements(spans)[Token(k)] == Escape(spans[k])
    ensures forall k :: 0 <= k < |spans| ==> Decode(Replacements(spans)[Token(k)]) == spans[k]
    ensures forall t :: t in Replacements(spans) ==> exists k :: 0 <= k < |spans| && t == Token(k)
  {
    hide Token, Escape, Decode, NoMarkup, Replacements;
    ReplacementsHold(spans);
    forall k | 0 <= k < |spans| ensures Decode(Escape(spans[k])) == spans[k] {
      EscapedReads(spans[k]);
    }
  }

  lemma {:induction false} ReplacementsHold(spans: seq<string>)
    ensures |Replacements(spans)| == |spans|
    ensures forall k :: 0 <= k < |spans| ==>
              Token(k) in Replacements(spans) && Replacements(spans)[Token(k)] == Escape(spans[k])
    ensures forall t :: t in Replacements(spans) ==> exists k :: 0 <= k < |spans| && t == Token(k)
    decreases |spans|
  {
    hide Token, Escape;
    if spans != [] {
      var last := |spans| - 1;
      ReplacementsHold(spans[..last]);
      forall k | 0 <= k < last ensures Token(k) != Token(last) {
        TokenInjective(k, last);
      }
      forall t | t in Replacements(spans) ensures exists k :: 0 <= k < |spans| && t == Token(k) {
        if t == Token(last) {
          assert t == Token(last);
        } else {
          assert t in Replacements(spans[..last]);
        }
      }
    }
  }

  lemma ProtectedTextGrows(t: Template, more: string, span: string)
    requires t.Valid()
    ensures ProtectedText(t.AddText(more)) == ProtectedText(t) + more
    ensures ProtectedText(t.AddSpan(span)) == ProtectedText(t) + Token(|t.spans|)
  {
    hide Token;
    var n := |t.spans|;
    FillExtendLast(t.lits, Tokens(n), more);
    FillAddHole(t.lits, Tokens(n), Token(n));
    assert Tokens(n + 1) == Tokens(n) + [Token(n)];
  }

  method AddMathReplacement(raw: string, replacements: map<string, string>, ghost spans: seq<string>)
    returns (token: string, extended: map<string, string>)
    requires replacements == Replacements(spans)
    ensures token == Token(|spans|) && extended == Replacements(spans + [raw])
    ensures extended.Keys == replacements.Keys + {token} && Decode(extended[token]) == raw && NoMarkup(extended[token])
  {
    hide Escape, Decode, NoMarkup;
    ReplacementsAre(spans);
    EscapedReads(raw);
    token := Token(|replacements|);
    extended := replacements[token := Escape(raw)];
    assert (spans + [raw])[..|spans|] == spans;
  }

  method MathSpanEnd(text: string, i: nat) returns (end: int)
    requires i < |text|
    ensures end == match SpanEnd(text, i) case None => -1 case Some(e) => e
  {
    var escaped := IsEscapedAt(text, i);
    assert forall part: string :: |part| > 0 && part <= text[i..] <==> |part| > 0 && At(text, i, part);
    var width := 2;
    if "$$" <= text[i..] && !escaped {
      end := FindMathEnd(text, i + 2, "$$");
    } else if "\\[" <= text[i..] {
      end := FindMathEnd(text, i + 2, "\\]");
    } else if "\\(" <= text[i..] {
      end := FindMathEnd(text, i + 2, "\\)");
    } else if text[i] == '$' && !escaped {
      end := FindInlineDollarEnd(text, i + 1);
      width := 1;
    } else {
      return -1;
    }
    if end != -1 { end := end + width; }
  }

  /** A span at `i` becomes the next token. */
  lemma SpanProtected(text: string, i: nat, e: nat, now: Template)
    requires i < |text| && now.Valid() && SpanEnd(text, i) == Some(e)
    ensures i < e <= |text|
    ensures var next := now.AddSpan(text[i..e]);
            && ProtectFrom(text, i, now) == ProtectFrom(text, e, next)
            && ProtectedText(next) == ProtectedText(now) + Token(|now.spans|)
            && next.Valid() && next.spans == now.spans + [text[i..e]]
  {
    hide SpanEnd, Token, ProtectedText;
    SpanEnds(text, i);
    ProtectedTextGrows(now, "", text[i..e]);
  }

  lemma SpanEnds(text: string, i: nat)
    requires i < |text|
    ensures SpanEnd(text, i).Some? ==> i < SpanEnd(text, i).value <= |text|
  {
  }

  lemma TextProtected(text: string, i: nat, now: Template)
    requires i < |text| && now.Valid() && SpanEnd(text, i).None?
    ensures var next := now.AddText([text[i]]);
            && ProtectFrom(text, i, now) == ProtectFrom(text, i + 1, next)
            && ProtectedText(next) == ProtectedText(now) + [text[i]]
            && next.Valid() && next.spans == now.spans
  {
    hide SpanEnd, Token, ProtectedText;
    ProtectedTextGrows(now, [text[i]], "");
  }

  lemma AllProtected(text: string, now: Template)
    requires now.Valid()
    ensures ProtectFrom(text, |text|, now) == now
  {
  }

  /** Hides the math of one chunk; `done` is what the document consists of so far. */
  method ProtectMathInText(text: string, replacements: map<string, string>, ghost done: Template)
    returns (out: string, extended: map<string, string>)
    requires done.Valid() && replacements == Replacements(done.spans)
    ensures var t := ProtectFrom(text, 0, done);
            ProtectedText(t) == ProtectedText(done) + out && extended == Replacements(t.spans)
  {
    hide SpanEnd, Replacements, ProtectedText, ProtectFrom, Token, Template.AddSpan, Template.AddText;
    out, extended := "", replacements;
    ghost var now := done;
    var i := 0;
    while i < |text|
      invariant i <= |text| && now.Valid()
      invariant ProtectFrom(text, 0, done) == ProtectFrom(text, i, now)
      invariant ProtectedText(now) == ProtectedText(done) + out && extended == Replacements(now.spans)
    {
      var end := MathSpanEnd(text, i);
      if end != -1 {
        SpanProtected(text, i, end, now);
        var token;
        token, extended := AddMathReplacement(text[i..end], extended, now.spans);
        now := now.AddSpan(text[i..end]);
        out := out + token;
        i := end;
      } else {
        TextProtected(text, i, now);
        now := now.AddText([text[i]]);
        out := out + [text[i]];
        i := i + 1;
      }
    }
    AllProtected(text, now);
  }

  function Flushed(chunk: string, now: Template): (t: Template)
    requires now.Valid()
    ensures t.Valid()
  {
    if chunk == "" then now else ProtectFrom(chunk, 0, now)
  }

  lemma FlushFirst(chunk: string, rest: seq<Block>, now: Template)
    requires now.Valid()
    ensures ProtectBlocks(Flush(chunk) + rest, now) == ProtectBlocks(rest, Flushed(chunk, now))
  {
    if chunk == "" {
      assert Flush(chunk) + rest == rest;
    } else {
      assert (Flush(chunk) + rest)[1..] == rest;
    }
  }

  lemma FencedFirst(line: string, rest: seq<Block>, now: Template)
    requires now.Valid()
    ensures ProtectBlocks([Fenced(line)] + rest, now) == ProtectBlocks(rest, now.AddText(line))
  {
    assert ([Fenced(line)] + rest)[1..] == rest;
  }

  lemma NothingProtected()
    ensures ProtectedText(NOTHING) == "" && Replacements(NOTHING.spans) == map[]
  {
    assert Tokens(0) == [];
  }

  lemma NoBlocksLeft(now: Template)
    requires now.Valid()
    ensures ProtectBlocks([], now) == now
  {
  }

  method FlushChunk(chunk: string, out: string, replacements: map<string, string>, ghost now: Template)
    returns (longer: string, extended: map<string, string>)
    requires now.Valid() && out == ProtectedText(now) && replacements == Replacements(now.spans)
    ensures longer == ProtectedText(Flushed(chunk, now)) && extended == Replacements(Flushed(chunk, now).spans)
  {
    longer, extended := out, replacements;
    if |chunk| != 0 {
      var shielded;
      shielded, extended := ProtectMathInText(chunk, replacements, now);
      longer := out + shielded;
    }
  }

  /** What the line at `i` does to what is still to be protected. */
  lemma MarkerNext(lines: seq<string>, i: nat, chunk: string, fence: string, now: Template)
    requires i < |lines| && now.Valid() && FenceMarker(TrimmedLine(lines[i])) != ""
    ensures ProtectBlocks(Blocks(lines[i..], chunk, fence), now)
         == ProtectBlocks(Blocks(lines[i + 1..], "", NextFence(fence, TrimmedLine(lines[i]))), Flushed(chunk, now).AddText(lines[i]))
  {
    hide ProtectBlocks, FenceMarker, TrimmedLine, NextFence, Flushed;
    var tail := Blocks(lines[i + 1..], "", NextFence(fence, TrimmedLine(lines[i])));
    assert lines[i..][0] == lines[i] && lines[i..][1..] == lines[i + 1..];
    FlushFirst(chunk, [Fenced(lines[i])] + tail, now);
    assert Flush(chunk) + [Fenced(lines[i])] + tail == Flush(chunk) + ([Fenced(lines[i])] + tail);
    FencedFirst(lines[i], tail, Flushed(chunk, now));
  }

  lemma LineNext(lines: seq<string>, i: nat, chunk: string, fence: string, now: Template)
    requires i < |lines| && now.Valid() && FenceMarker(TrimmedLine(lines[i])) == ""
    ensures ProtectBlocks(Blocks(lines[i..], chunk, fence), now)
         == if fence != "" then ProtectBlocks(Blocks(lines[i + 1..], chunk, fence), now.AddText(lines[i]))
            else ProtectBlocks(Blocks(lines[i + 1..], chunk + lines[i], fence), now)
  {
    hide ProtectBlocks, FenceMarker, TrimmedLine, NextFence, Flush;
    assert lines[i..][0] == lines[i] && lines[i..][1..] == lines[i + 1..];
    if fence != "" { FencedFirst(lines[i], Blocks(lines[i + 1..], chunk, fence), now); }
  }

  lemma NothingNext(chunk: string, fence: string, now: Template)
    requires now.Valid()
    ensures ProtectBlocks(Blocks([], chunk, fence), now) == Flushed(chunk, now)
  {
    hide Flushed;
    assert Flush(chunk) + [] == Flush(chunk);
    FlushFirst(chunk, [], now);
    NoBlocksLeft(Flushed(chunk, now));
  }

  method ProtectMathSegments(source: string) returns (out: string, replacements: map<string, string>)
    ensures var t := ProtectDocument(source);
            out == ProtectedText(t) && replacements == Replacements(t.spans)
  {
    hide ProtectFrom, Replacements, ProtectedText, FenceMarker, ProtectBlocks, ClosesFence, TrimmedLine, Flushed, Blocks, SplitAfter;
    var lines := SplitAfter(source);
    out, replacements := "", map[];
    var chunk := "";
    var inFence, fenceMarker := false, "";
    ghost var now := NOTHING;
    NothingProtected();
    var i := 0;
    assert lines[0..] == lines;
    while i < |lines|
      invariant i <= |lines| && now.Valid() && inFence == (fenceMarker != "")
      invariant ProtectDocument(source) == ProtectBlocks(Blocks(lines[i..], chunk, fenceMarker), now)
      invariant out == ProtectedText(now) && replacements == Replacements(now.spans)
    {
      var line := lines[i];
      var trimmed := TrimmedLine(line);
      var marker := MarkdownFenceMarker(trimmed);
      if marker != "" {
        MarkerNext(lines, i, chunk, fenceMarker, now);
        out, replacements := FlushChunk(chunk, out, replacements, now);
        now := Flushed(chunk, now);
        chunk := "";
        ProtectedTextGrows(now, line, "");
        out := out + line;
        now := now.AddText(line);
        if inFence {
          var closes := ClosesMarkdownFence(trimmed, fenceMarker);
          if closes { inFence, fenceMarker := false, ""; }
        } else {
          inFence, fenceMarker := true, marker;
        }
      } else {
        LineNext(lines, i, chunk, fenceMarker, now);
        if inFence {
          ProtectedTextGrows(now, line, "");
          out := out + line;
          now := now.AddText(line);
        } else {
          chunk := chunk + line;
        }
      }
      i := i + 1;
    }
    assert lines[i..] == [];
    NothingNext(chunk, fenceMarker, now);
    out, replacements := FlushChunk(chunk, out, replacements, now);
  }

  /** The math passes around a Markdown converter that leaves its input as it is. */
  method RenderMath(source: string) returns (html: string)
    requires Free(source, MARK) && |ProtectDocument(source).spans| <= 1_000_000
    ensures var t := ProtectDocument(source);
            && html == Fill(t.lits, Escapes(t.spans))
            && ReadsWith(html, source, t.lits, Escapes(t.spans))
  {
    hide ProtectBlocks, Blocks, Free, Token, Escape, Decode, NoMarkup;
    ghost var t := ProtectDocument(source);
    ghost var n := |t.spans|;
    var shielded, replacements := ProtectMathSegments(source);
    ReplacementsAre(t.spans);
    forall i, j | 0 <= i < j < n ensures Tokens(n)[i] != Tokens(n)[j] {
      TokenInjective(i, j);
    }
    forall k | 0 <= k < n ensures Token(k) != "" { TokenStart(k); }
    html := ReplaceRange(shielded, replacements, Tokens(n), Escapes(t.spans));
    ghost var order :| IsOrder(order, n) && html == ReplaceInOrder(shielded, Tokens(n), Escapes(t.spans), order);
    RestoreAnyOrder(source, order);
    EscapesRead(t.spans);
    DocumentKeepsSource(source);
  }
}
