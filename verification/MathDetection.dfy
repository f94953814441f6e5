/** Deciding from a source whether a page must load the math renderer. */
module MathDetection {
  import opened Text
  import opened MarkdownLines
  import opened MathProtection

  predicate HasUnescapedDollar(source: string) {
    exists i :: 0 <= i < |source| && source[i] == '$' && !EscapedAt(source, i)
  }

  predicate NeedsMath(source: string) {
    || Contains(source, "\\(")
    || Contains(source, "\\[")
    || Contains(source, "\\begin{equation}")
    || Contains(source, "\\begin{align}")
    || Contains(source, "$$")
    || HasUnescapedDollar(source)
  }

  /** What every span of protected math begins with. */
  predicate HasOpener(source: string) {
    Contains(source, "\\(") || Contains(source, "\\[") || HasUnescapedDollar(source)
  }

  /** The forward scan with one flag sees the same escapes as counting backslashes backwards. */
  method ContainsUnescapedDollar(source: string) returns (found: bool)
    ensures found <==> HasUnescapedDollar(source)
  {
    var escaped := false;
    for i := 0 to |source|
      invariant escaped == EscapedAt(source, i)
      invariant forall j :: 0 <= j < i ==> !(source[j] == '$' && !EscapedAt(source, j))
    {
      if escaped {
        escaped := false;
        continue;
      }
      if source[i] == '\\' {
        escaped := true;
        continue;
      }
      if source[i] == '$' {
        return true;
      }
    }
    return false;
  }

  method ContentNeedsMath(source: string) returns (needs: bool)
    ensures needs <==> NeedsMath(source)
  {
    if source == "" {
      assert !NeedsMath(source) by {
        assert forall part: string :: part != "" ==> !Contains(source, part);
      }
      return false;
    }
    if Contains(source, "\\(") || Contains(source, "\\[") || Contains(source, "\\begin{equation}")
       || Contains(source, "\\begin{align}") || Contains(source, "$$") {
      return true;
    }
    needs := ContainsUnescapedDollar(source);
  }

  /** The chunk from `a` to `b` of a document starts on a line of its own. */
  predicate StartsLine(source: string, a: nat) {
    a == 0 || (a <= |source| && source[a - 1] == '\n')
  }

  /** An escape never reaches across the start of a chunk. */
  lemma {:induction false} EscapeWithinChunk(source: string, a: nat, b: nat, i: nat)
    requires a <= b <= |source| && StartsLine(source, a) && i <= b - a
    ensures BackslashRun(source[a..b], i) == BackslashRun(source, a + i)
  {
    if i > 0 {
      EscapeWithinChunk(source, a, b, i - 1);
    }
  }

  lemma PartContained(source: string, a: nat, part: string)
    requires At(source, a, part)
    ensures Contains(source, part)
  {
    assert part <= source[a..];
  }

  /** A span anywhere in a chunk shows in the whole document. */
  lemma SpanHasOpener(source: string, a: nat, b: nat, i: nat)
    requires a <= b <= |source| && StartsLine(source, a) && i < b - a
    requires SpanEnd(source[a..b], i).Some?
    ensures HasOpener(source)
  {
    hide Contains, HasUnescapedDollar, SpanEnd, BackslashRun;
    var chunk := source[a..b];
    EscapeWithinChunk(source, a, b, i);
    SpanOpens(chunk, i);
    match Opens(chunk, i) {
      case Some((open, close)) =>
        if chunk[i] == '$' {
          UnescapedDollar(source, a + i);
        } else {
          assert At(chunk, i, open) && |open| == 2;
          PartOfChunk(source, a, b, i, open);
          PartContained(source, a + i, open);
        }
    }
  }

  lemma PartOfChunk(source: string, a: nat, b: nat, i: nat, part: string)
    requires a <= b <= |source| && At(source[a..b], i, part)
    ensures At(source, a + i, part)
  {
    assert i + |part| <= b - a;
    var there := source[a + i..a + i + |part|];
    forall k | 0 <= k < |part| ensures there[k] == part[k] {
      assert source[a..b][i..i + |part|][k] == source[a..b][i + k] == source[a + i + k];
    }
    assert there == part;
  }

  lemma SpanOpens(text: string, i: nat)
    requires i < |text| && SpanEnd(text, i).Some?
    ensures Opens(text, i).Some?
    ensures text[i] == '$' ==> !EscapedAt(text, i)
    ensures text[i] != '$' ==> var open := Opens(text, i).value.0; At(text, i, open) && (open == "\\(" || open == "\\[")
  {
    hide FindCloser, BackslashRun;
    assert At(text, i, "$$") || At(text, i, "\\[") || At(text, i, "\\(") ==> text[i] == text[i..i + 2][0];
  }

  lemma UnescapedDollar(source: string, i: nat)
    requires i < |source| && source[i] == '$' && !EscapedAt(source, i)
    ensures HasUnescapedDollar(source)
  {
  }

  lemma {:induction false} ProtectFindsSpan(text: string, i: nat, done: Template)
    requires i <= |text| && done.Valid()
    requires |ProtectFrom(text, i, done).spans| > |done.spans|
    ensures exists p :: i <= p < |text| && SpanEnd(text, p).Some?
    decreases |text| - i
  {
    hide SpanEnd;
    if i < |text| {
      match SpanEnd(text, i) {
        case Some(e) =>
        case None => ProtectFindsSpan(text, i + 1, done.AddText([text[i]]));
      }
    }
  }

  ghost predicate Terminated(lines: seq<string>) {
    forall k :: 0 <= k < |lines| - 1 ==> EndsLine(lines[k])
  }

  /** Every block but the last ends a line. */
  ghost predicate LinesEnd(blocks: seq<Block>) {
    forall k :: 0 <= k < |blocks| - 1 ==> EndsLine(BlockText(blocks[k]))
  }

  predicate EndsLine(text: string) {
    text != "" && text[|text| - 1] == '\n'
  }

  lemma {:induction false} BlocksHaveOpener(source: string, a: nat, blocks: seq<Block>, done: Template)
    requires a <= |source| && BlockTexts(blocks) == source[a..] && StartsLine(source, a)
    requires LinesEnd(blocks) && done.Valid()
    requires |ProtectBlocks(blocks, done).spans| > |done.spans|
    ensures HasOpener(source)
    decreases |blocks|
  {
    hide HasOpener, ProtectFrom;
    if blocks != [] {
      var text := BlockText(blocks[0]);
      var b := a + |text|;
      assert source[a..] == text + BlockTexts(blocks[1..]);
      assert source[b..] == BlockTexts(blocks[1..]) && source[a..b] == text;
      match blocks[0] {
        case Fenced(line) =>
          if blocks[1..] != [] { assert source[b - 1] == text[|text| - 1]; }
          BlocksHaveOpener(source, b, blocks[1..], done.AddText(line));
        case Chunk(chunk) =>
          var next := ProtectFrom(chunk, 0, done);
          if |next.spans| > |done.spans| {
            ProtectFindsSpan(chunk, 0, done);
            var p :| 0 <= p < |chunk| && SpanEnd(chunk, p).Some?;
            SpanHasOpener(source, a, b, p);
          } else {
            if blocks[1..] != [] { assert source[b - 1] == text[|text| - 1]; }
            BlocksHaveOpener(source, b, blocks[1..], next);
          }
      }
    }
  }

  lemma {:induction false} SplitAfterTerminates(s: string)
    ensures Terminated(SplitAfter(s))
    decreases |s|
  {
    match FirstNewline(s) {
      case None =>
      case Some(i) =>
        SplitAfterTerminates(s[i + 1..]);
        var lines, rest := SplitAfter(s), SplitAfter(s[i + 1..]);
        assert lines[0] == s[..i + 1] && lines[1..] == rest;
        forall k | 0 <= k < |lines| - 1 ensures EndsLine(lines[k]) {
          if k > 0 { assert lines[k] == rest[k - 1]; }
        }
    }
  }

  lemma LinesEndCons(block: Block, rest: seq<Block>)
    requires LinesEnd(rest) && (rest != [] ==> EndsLine(BlockText(block)))
    ensures LinesEnd([block] + rest)
  {
  }

  lemma {:induction false} BlocksEndLines(lines: seq<string>, chunk: string, fence: string)
    requires Terminated(lines)
    requires chunk == "" || lines == [] || (fence == "" && EndsLine(chunk))
    ensures LinesEnd(Blocks(lines, chunk, fence))
    ensures lines == [] && chunk == "" ==> Blocks(lines, chunk, fence) == []
    decreases |lines|
  {
    hide FenceMarker, TrimmedLine, NextFence, LinesEnd;
    if lines == [] {
      LinesEndFlush(chunk);
    } else {
      var trimmed := TrimmedLine(lines[0]);
      if FenceMarker(trimmed) != "" {
        var rest := Blocks(lines[1..], "", NextFence(fence, trimmed));
        BlocksEndLines(lines[1..], "", NextFence(fence, trimmed));
        LinesEndCons(Fenced(lines[0]), rest);
        var fenced := [Fenced(lines[0])] + rest;
        assert Flush(chunk) + [Fenced(lines[0])] + rest == Flush(chunk) + fenced;
        if chunk == "" {
          assert Flush(chunk) + fenced == fenced;
        } else {
          LinesEndCons(Chunk(chunk), fenced);
        }
      } else if fence != "" {
        BlocksEndLines(lines[1..], chunk, fence);
        LinesEndCons(Fenced(lines[0]), Blocks(lines[1..], chunk, fence));
      } else {
        BlocksEndLines(lines[1..], chunk + lines[0], fence);
      }
    }
  }

  lemma LinesEndFlush(chunk: string)
    ensures LinesEnd(Flush(chunk))
  {
  }

  /** Whenever protection hides any math of the text it is given, that text has an opening delimiter. */
  lemma ProtectedMathOpens(source: string)
    requires ProtectDocument(source).spans != []
    ensures HasOpener(source)
  {
    hide HasOpener, ProtectBlocks, Blocks, LinesEnd;
    var blocks := Blocks(SplitAfter(source), "", "");
    SplitAfterTerminates(source);
    BlocksEndLines(SplitAfter(source), "", "");
    BlocksKeepText(SplitAfter(source), "", "");
    assert source[0..] == source;
    BlocksHaveOpener(source, 0, blocks, NOTHING);
  }

  /** Whenever protection hides any math of the text it is given, that text is found to need math. */
  lemma ProtectedMathIsDetected(source: string)
    requires ProtectDocument(source).spans != []
    ensures NeedsMath(source)
  {
    ProtectedMathOpens(source);
  }
}
