/** Whether a page needs the math renderer is decided from the source as it was written, while math is looked for in
    what the passes over figures and equations made of it. The passes can make math of text that had none; when a
    reference follows a backslash they do, and otherwise not. */
module RawDetection {
  import opened Text
  import opened Substitution
  import opened MarkdownLines
  import opened Patterns
  import opened LineScanner
  import opened Links
  import opened MathProtection
  import opened MathDetection
  import Figures
  import Equations
  import opened Rendering

  // ---------------------------------------------------------------- text without opening delimiters

  /** Scanned after `run` backslashes, the text opens no math: every dollar is escaped, and no bracket or parenthesis
      follows a backslash. */
  predicate Safe(s: string, run: nat)
    decreases |s|
  {
    s != "" ==>
      && (s[0] == '$' ==> run % 2 == 1)
      && (run > 0 ==> s[0] != '[' && s[0] != '(')
      && Safe(s[1..], if s[0] == '\\' then run + 1 else 0)
  }

  lemma {:induction false} SafeFrom(source: string, i: nat)
    requires i <= |source| && !HasOpener(source)
    ensures Safe(source[i..], BackslashRun(source, i))
    decreases |source| - i
  {
    if i < |source| {
      SafeFrom(source, i + 1);
      assert source[i..][1..] == source[i + 1..];
      if BackslashRun(source, i) > 0 { BracketOpens(source, i - 1); }
    }
  }

  lemma BracketOpens(source: string, i: nat)
    requires i + 1 < |source| && source[i] == '\\' && !HasOpener(source)
    ensures source[i + 1] != '[' && source[i + 1] != '('
  {
    hide Contains, HasUnescapedDollar;
    var two := source[i..i + 2];
    assert two == [source[i], source[i + 1]];
    assert two == "\\[" || two == "\\(" ==> At(source, i, two);
    if At(source, i, "\\[") { PartContained(source, i, "\\["); }
    if At(source, i, "\\(") { PartContained(source, i, "\\("); }
    assert two == "\\[" ==> At(source, i, "\\[");
    assert two == "\\(" ==> At(source, i, "\\(");
  }

  lemma {:induction false} SafeAt(source: string, i: nat)
    requires i <= |source| && Safe(source, 0)
    ensures Safe(source[i..], BackslashRun(source, i))
  {
    if i > 0 {
      SafeAt(source, i - 1);
      assert source[i - 1..][1..] == source[i..];
    } else {
      assert source[0..] == source;
    }
  }

  lemma SafeHasNoOpener(source: string)
    requires Safe(source, 0)
    ensures !HasOpener(source)
  {
    forall i | 0 <= i <= |source| ensures !("\\(" <= source[i..]) && !("\\[" <= source[i..]) {
      SafeAt(source, i);
      if |source[i..]| > 1 { assert source[i..][1..][0] == source[i..][1]; }
    }
    forall i | 0 <= i < |source| && source[i] == '$' ensures EscapedAt(source, i) {
      SafeAt(source, i);
    }
  }

  /** A text is safe if and only if nothing in it opens math. */
  lemma SafeIffNoOpener(source: string)
    ensures Safe(source, 0) <==> !HasOpener(source)
  {
    hide Safe, HasOpener;
    if !HasOpener(source) {
      SafeFrom(source, 0);
      assert source[0..] == source;
      assert BackslashRun(source, 0) == 0;
    }
    if Safe(source, 0) { SafeHasNoOpener(source); }
  }

  lemma {:induction false} SafePrefix(a: string, b: string, run: nat)
    requires Safe(a + b, run)
    ensures Safe(a, run)
    decreases |a|
  {
    if a != "" {
      assert (a + b)[1..] == a[1..] + b;
      SafePrefix(a[1..], b, if a[0] == '\\' then run + 1 else 0);
    }
  }

  /** After a character that is no backslash everything starts anew. */
  lemma {:induction false} SafeJoin(a: string, b: string, run: nat)
    requires a != "" && a[|a| - 1] != '\\'
    ensures Safe(a + b, run) <==> Safe(a, run) && Safe(b, 0)
    decreases |a|
  {
    assert (a + b)[1..] == a[1..] + b;
    if |a| > 1 {
      SafeJoin(a[1..], b, if a[0] == '\\' then run + 1 else 0);
    } else {
      assert a[1..] == "" && "" + b == b;
    }
  }

  lemma {:induction false} PlainIsSafe(s: string)
    requires '\\' !in s && '$' !in s
    ensures Safe(s, 0)
  {
    if s != "" { PlainIsSafe(s[1..]); }
  }

  // ---------------------------------------------------------------- lines

  lemma SafeTwoLines(a: string, b: string, run: nat)
    ensures Safe(a + "\n" + b, run) <==> Safe(a, run) && Safe(b, 0)
  {
    hide Safe;
    SafeJoin(a + "\n", b, run);
    SafeEndsLine(a, run);
  }

  lemma {:induction false} SafeEndsLine(a: string, run: nat)
    ensures Safe(a + "\n", run) <==> Safe(a, run)
    decreases |a|
  {
    if a == "" {
      assert a + "\n" == "\n" && "\n"[1..] == "";
    } else {
      assert (a + "\n")[1..] == a[1..] + "\n";
      SafeEndsLine(a[1..], if a[0] == '\\' then run + 1 else 0);
    }
  }

  ghost predicate AllSafe(lines: seq<string>) {
    forall k :: 0 <= k < |lines| ==> Safe(lines[k], 0)
  }

  lemma {:induction false} SafeLines(s: string)
    requires Safe(s, 0)
    ensures AllSafe(Split(s))
    decreases |s|
  {
    hide Safe;
    match FirstNewline(s) {
      case None =>
      case Some(i) =>
        assert s == s[..i] + "\n" + s[i + 1..];
        SafeTwoLines(s[..i], s[i + 1..], 0);
        SafeLines(s[i + 1..]);
    }
  }

  lemma {:induction false} LinesSafe(lines: seq<string>)
    requires AllSafe(lines)
    ensures Safe(Join(lines), 0)
  {
    if |lines| > 1 {
      LinesSafe(lines[1..]);
      SafeTwoLines(lines[0], Join(lines[1..]), 0);
    }
  }

  lemma {:induction false} SafeNewlines(s: string, pat: string, run: nat)
    requires Safe(s, run) && (pat == "\r\n" || pat == "\r")
    ensures Safe(ReplaceAll(s, pat, "\n"), run)
    decreases |s|
  {
    if s != "" {
      if pat <= s {
        if |pat| == 2 { assert s[1..][1..] == s[2..] && s[1..][0] == s[1]; }
        SafeNewlines(s[|pat|..], pat, 0);
        var rest := ReplaceAll(s[|pat|..], pat, "\n");
        assert ("\n" + rest)[1..] == rest;
      } else {
        var next := if s[0] == '\\' then run + 1 else 0;
        SafeNewlines(s[1..], pat, next);
        assert ([s[0]] + ReplaceAll(s[1..], pat, "\n"))[1..] == ReplaceAll(s[1..], pat, "\n");
      }
    }
  }

  lemma SafeUnix(s: string)
    requires Safe(s, 0)
    ensures Safe(UnixNewlines(s), 0)
  {
    SafeNewlines(s, "\r\n", 0);
    SafeNewlines(ReplaceAll(s, "\r\n", "\n"), "\r", 0);
  }

  // ---------------------------------------------------------------- rewriting references

  /** What a figure reference is rewritten to: no backslash, no dollar, and a bracket or a word in front. */
  predicate PlainText(text: string) {
    text != "" && '\\' !in text && '$' !in text && (text[0] == '[' || text[0] == 'F' || text[0] == '?')
  }

  ghost predicate WritesPlain(by_: (string, string) -> string) {
    forall content, raw :: by_(content, raw) == raw || PlainText(by_(content, raw))
  }

  /** The command with one more backslash in front. */
  function Escaped(command: Command): string { "\\" + command.head }

  predicate IsReference(command: Command) {
    |command.head| >= 2 && command.head[0] == '\\' && command.head[|command.head| - 1] == '{'
  }

  lemma MatchEnds(command: Command, s: string, i: nat)
    requires command.MatchAt(s, i).Some? && IsReference(command)
    ensures var m := command.MatchAt(s, i).value;
            i < m.end <= |s| && s[i] == '\\' && s[m.end - 1] == '}' && BackslashRun(s, m.end) == 0
  {
    hide BackslashRun, At;
    MatchShape(command, s, i);
    StartsWithHead(s, i, command.head);
    NoRun(s, command.MatchAt(s, i).value.end);
  }

  lemma NoRun(s: string, i: nat)
    requires i <= |s|
    ensures i > 0 && s[i - 1] != '\\' ==> BackslashRun(s, i) == 0
  {
  }

  /** No reference with a backslash in front. */
  predicate NoneEscaped(command: Command, s: string) { !Contains(s, Escaped(command)) }

  lemma NotAfterBackslash(command: Command, s: string, i: nat)
    requires command.MatchAt(s, i).Some? && NoneEscaped(command, s)
    ensures BackslashRun(s, i) == 0
  {
    hide Contains;
    if i > 0 && s[i - 1] == '\\' {
      var part := Escaped(command);
      assert s[i - 1..i - 1 + |part|] == [s[i - 1]] + s[i..i + |command.head|];
      assert At(s, i - 1, part);
      PartContained(s, i - 1, part);
    }
  }

  lemma SafeLater(s: string, i: nat, j: nat)
    requires i <= j <= |s| && Safe(s[i..], BackslashRun(s, i))
    ensures Safe(s[j..], BackslashRun(s, j))
    decreases j - i
  {
    if i < j {
      assert s[i..][1..] == s[i + 1..];
      SafeLater(s, i + 1, j);
    }
  }

  lemma {:induction false} ReplacingIsSafe(command: Command, s: string, i: nat, by_: (string, string) -> string)
    requires i <= |s| && IsReference(command) && NoneEscaped(command, s) && WritesPlain(by_)
    requires Safe(s[i..], BackslashRun(s, i))
    ensures Safe(command.ReplaceFrom(s, i, by_), BackslashRun(s, i))
    decreases |s| - i
  {
    hide Command.MatchAt, IsReference, NoneEscaped;
    if i < |s| {
      match command.MatchAt(s, i)
      case Some(m) =>
        MatchEnds(command, s, i);
        NotAfterBackslash(command, s, i);
        var raw, rest := s[i..m.end], command.ReplaceFrom(s, m.end, by_);
        var text := by_(m.content, raw);
        SafeLater(s, i, m.end);
        ReplacingIsSafe(command, s, m.end, by_);
        assert s[i..] == raw + s[m.end..];
        SafePrefix(raw, s[m.end..], 0);
        if text != raw { PlainIsSafe(text); }
        assert text[|text| - 1] != '\\';
        SafeJoin(text, rest, 0);
      case None =>
        SafeLater(s, i, i + 1);
        ReplacingIsSafe(command, s, i + 1, by_);
        var rest := command.ReplaceFrom(s, i + 1, by_);
        assert ([s[i]] + rest)[1..] == rest && s[i..][1..] == s[i + 1..];
    }
  }

  /** A part that could not have come from a rewritten reference. */
  predicate Foreign(part: string) {
    forall k :: 0 <= k < |part| ==> part[k] != '[' && part[k] != 'F' && part[k] != '?'
  }

  lemma {:induction false} PrefixWasThere(command: Command, s: string, i: nat, by_: (string, string) -> string, part: string)
    requires i <= |s| && IsReference(command) && WritesPlain(by_) && Foreign(part)
    ensures part <= command.ReplaceFrom(s, i, by_) ==> part <= s[i..]
    decreases |s| - i
  {
    hide Command.MatchAt, IsReference;
    if i < |s| && part != "" && part <= command.ReplaceFrom(s, i, by_) {
      match command.MatchAt(s, i)
      case Some(m) =>
        MatchEnds(command, s, i);
        var raw, rest := s[i..m.end], command.ReplaceFrom(s, m.end, by_);
        var text := by_(m.content, raw);
        assert (text + rest)[0] == part[0];
        assert text == raw;
        assert s[i..] == raw + s[m.end..];
        if |part| <= |raw| {
          assert part == (raw + rest)[..|part|] == raw[..|part|];
        } else {
          var tail := part[|raw|..];
          assert tail <= rest by { assert (raw + rest)[|raw|..] == rest && (raw + rest)[..|part|][|raw|..] == rest[..|tail|]; }
          PrefixWasThere(command, s, m.end, by_, tail);
          assert part[..|raw|] == (raw + rest)[..|raw|] == raw;
          assert part == raw + tail;
        }
      case None =>
        var rest := command.ReplaceFrom(s, i + 1, by_);
        assert s[i..] == [s[i]] + s[i + 1..];
        assert part[0] == ([s[i]] + rest)[0] == s[i];
        assert part[1..] <= rest by { assert ([s[i]] + rest)[1..] == rest && ([s[i]] + rest)[..|part|][1..] == rest[..|part| - 1]; }
        PrefixWasThere(command, s, i + 1, by_, part[1..]);
        assert part == [part[0]] + part[1..];
    }
  }

  /** Rewriting makes no new occurrence of a part that begins with a backslash. */
  lemma {:induction false} PartWasThere(
    command: Command, s: string, i: nat, by_: (string, string) -> string, part: string, j: nat) returns (k: nat)
    requires i <= |s| && IsReference(command) && WritesPlain(by_) && Foreign(part) && part != "" && part[0] == '\\'
    requires j <= |command.ReplaceFrom(s, i, by_)| && part <= command.ReplaceFrom(s, i, by_)[j..]
    ensures k <= |s| && part <= s[k..]
    decreases |s| - i
  {
    hide Command.MatchAt, IsReference, Foreign;
    var out := command.ReplaceFrom(s, i, by_);
    if j == 0 {
      assert out[0..] == out;
      PrefixWasThere(command, s, i, by_, part);
      k := i;
    } else {
      match command.MatchAt(s, i)
      case Some(m) =>
        MatchEnds(command, s, i);
        var raw, rest := s[i..m.end], command.ReplaceFrom(s, m.end, by_);
        var text := by_(m.content, raw);
        if j >= |text| {
          assert out[j..] == rest[j - |text|..];
          k := PartWasThere(command, s, m.end, by_, part, j - |text|);
        } else {
          assert out[j..][0] == text[j] == '\\';
          assert text == raw;
          PrefixWasThere(command, s, m.end, by_, part[if |part| < |raw| - j then |part| else |raw| - j..]) by {
            ForeignTail(part, if |part| < |raw| - j then |part| else |raw| - j);
          }
          k := i + j;
          RawThenRest(raw, rest, s[m.end..], j, part);
          assert s[k..] == (raw + s[m.end..])[j..] by { assert s[i..] == raw + s[m.end..]; }
        }
      case None =>
        var rest := command.ReplaceFrom(s, i + 1, by_);
        assert out[j..] == rest[j - 1..];
        k := PartWasThere(command, s, i + 1, by_, part, j - 1);
    }
  }

  lemma ForeignTail(part: string, n: nat)
    requires Foreign(part) && n <= |part|
    ensures Foreign(part[n..])
  {
  }

  /** A part that runs from `raw` into what follows. */
  lemma RawThenRest(raw: string, rest: string, after: string, j: nat, part: string)
    requires j <= |raw| && part <= (raw + rest)[j..]
    requires var n := if |part| < |raw| - j then |part| else |raw| - j; part[n..] <= rest ==> part[n..] <= after
    ensures part <= (raw + after)[j..]
  {
    var n := if |part| < |raw| - j then |part| else |raw| - j;
    assert (raw + rest)[j..] == raw[j..] + rest && (raw + after)[j..] == raw[j..] + after;
    assert part == part[..n] + part[n..];
    assert part[..n] == (raw[j..] + rest)[..n] == raw[j..][..n];
    if n == |raw| - j {
      assert raw[j..][..n] == raw[j..];
      assert (raw[j..] + rest)[n..] == rest && (raw[j..] + rest)[..|part|][n..] == rest[..|part| - n];
      assert part[n..] <= rest;
      assert part == raw[j..] + part[n..];
      assert (raw[j..] + after)[..|part|] == raw[j..] + after[..|part| - n];
    } else {
      assert part <= raw[j..];
      assert (raw[j..] + after)[..|part|] == raw[j..][..|part|];
    }
  }

  /** Rewriting one command escapes no other. */
  lemma StillNoneEscaped(command: Command, other: Command, s: string, by_: (string, string) -> string)
    requires IsReference(command) && WritesPlain(by_) && Foreign(Escaped(other)) && NoneEscaped(other, s)
    ensures NoneEscaped(other, command.ReplaceFrom(s, 0, by_))
  {
    hide WritesPlain, Foreign, Command.ReplaceFrom;
    var out := command.ReplaceFrom(s, 0, by_);
    if Contains(out, Escaped(other)) {
      var j :| 0 <= j <= |out| && Escaped(other) <= out[j..];
      var k := PartWasThere(command, s, 0, by_, Escaped(other), j);
    }
  }

  // ---------------------------------------------------------------- figures

  lemma {:induction false} AnchorTextPlain(s: string, lastDash: bool)
    ensures '\\' !in AnchorText(s, lastDash) && '$' !in AnchorText(s, lastDash)
    decreases |s|
  {
    if s != "" {
      AnchorTextPlain(s[1..], false);
      AnchorTextPlain(s[1..], true);
    }
  }

  lemma AnchorPlain(key: string)
    ensures '\\' !in PrefixedAnchor("fig-", key) && '$' !in PrefixedAnchor("fig-", key)
  {
    hide AnchorText;
    AnchorTextPlain(Lower(TrimSpace(key)), false);
  }

  lemma FigureReferencesPlain(figures: seq<Figures.Figure>, named: bool)
    ensures WritesPlain(Figures.Resolve(Figures.References(figures), named))
  {
    hide EscapeLinkText, PrefixedAnchor, Figures.References, PlainText, TrimSpace;
    UnknownPlain();
    var references := Figures.References(figures);
    var by_ := Figures.Resolve(references, named);
    forall content, raw ensures by_(content, raw) == raw || PlainText(by_(content, raw)) {
      var key := TrimSpace(content);
      if key in references {
        Figures.ReferencesResolveFirst(figures, key);
        var n := FirstWithLabel(figures, Figures.LabelOf, key).value + 1;
        Figures.EscapedNumber(n, named);
        AnchorPlain(key);
        var text, anchor := (if named then "Figure " else "") + Decimal(n), PrefixedAnchor("fig-", key);
        NumberPlain(n, named);
        LinkPlain(text, anchor);
      }
    }
  }

  lemma UnknownPlain()
    ensures PlainText("??") && PlainText("Figure ??")
  {
  }

  lemma NumberPlain(n: nat, named: bool)
    ensures var text := (if named then "Figure " else "") + Decimal(n); '\\' !in text && '$' !in text
  {
  }

  lemma LinkPlain(text: string, anchor: string)
    requires '\\' !in text && '$' !in text && '\\' !in anchor && '$' !in anchor
    ensures PlainText("[" + text + "](#" + anchor + ")")
  {
  }

  /** A line that opens no math and has no escaped reference. */
  ghost predicate Good(line: string) {
    Safe(line, 0) && NoneEscaped(REF, line) && NoneEscaped(FIGREF, line)
  }

  ghost predicate AllGood(lines: seq<string>) {
    forall k :: 0 <= k < |lines| ==> Good(lines[k])
  }

  lemma RewrittenIsSafe(figures: seq<Figures.Figure>, line: string)
    requires Good(line)
    ensures Safe(Figures.RewriteLine(Figures.References(figures))(line), 0)
  {
    hide WritesPlain, Command.ReplaceFrom, Safe, NoneEscaped, Figures.Resolve, Figures.References;
    var references := Figures.References(figures);
    var first, second := Figures.Resolve(references, true), Figures.Resolve(references, false);
    FigureReferencesPlain(figures, true);
    FigureReferencesPlain(figures, false);
    Commands();
    assert line[0..] == line && BackslashRun(line, 0) == 0;
    ReplacingIsSafe(FIGREF, line, 0, first);
    StillNoneEscaped(FIGREF, REF, line, first);
    var between := FIGREF.ReplaceFrom(line, 0, first);
    assert between[0..] == between && BackslashRun(between, 0) == 0;
    ReplacingIsSafe(REF, between, 0, second);
  }

  lemma Commands()
    ensures IsReference(REF) && IsReference(FIGREF) && Foreign(Escaped(REF))
  {
  }

  lemma TokenIsGood(k: nat)
    ensures Good(Figures.FigureToken(k)) && Good("")
  {
    hide Contains;
    var token := Figures.FigureToken(k);
    assert '\\' !in token && '$' !in token;
    PlainIsSafe(token);
    NoBackslashNonePart(token, Escaped(REF));
    NoBackslashNonePart(token, Escaped(FIGREF));
    NoBackslashNonePart("", Escaped(REF));
    NoBackslashNonePart("", Escaped(FIGREF));
  }

  lemma NoBackslashNonePart(s: string, part: string)
    requires '\\' !in s && part != "" && part[0] == '\\'
    ensures !Contains(s, part)
  {
    forall i | 0 <= i <= |s| ensures !(part <= s[i..]) {
      assert i < |s| ==> s[i..][0] == s[i];
    }
  }

  lemma ThenGood(c: Figures.Collected, step: Figures.Step)
    requires AllGood(c.out) && AllGood(Figures.StepSource(step))
    ensures AllGood(c.Then(step).out)
  {
    hide Good, Figures.FigureToken, TrimSpace;
    TokenIsGood(|c.figures|);
    if step.Copied? { assert Figures.StepSource(step)[0] == step.line; }
  }

  lemma {:induction false} CollectedGood(c: Figures.Collected, lines: seq<string>, i: nat, s: Scan)
    requires i <= |lines| && AllGood(lines) && AllGood(c.out)
    ensures AllGood(Figures.Emit(c, Figures.Steps(lines, i, s)).out)
    decreases |lines| - i
  {
    hide Good, Figures.NextStep, Figures.AfterStep, Figures.Collected.Then, Figures.Emit, Figures.TakenIn;
    if i == |lines| {
      Figures.NoMoreSteps(c, lines, s);
    } else {
      var (step, next) := Figures.NextStep(lines, i, s);
      Figures.NextStepTakes(lines, i, s);
      Figures.EmitNextStep(c, lines, i, s);
      assert AllGood(lines[i..next]);
      ThenGood(c, step);
      CollectedGood(c.Then(step), lines, next, Figures.AfterStep(s, step));
    }
  }

  lemma FiguresStaySafe(lines: seq<string>)
    requires AllGood(lines)
    ensures AllSafe(Figures.Prepared(lines))
  {
    hide Safe, NoneEscaped, Figures.Steps, Figures.Emit, Figures.References, Figures.RewriteLine;
    CollectedGood(Figures.NONE_YET, lines, 0, REST);
    var c := Figures.Collect(lines);
    var rewrite := Figures.RewriteLine(Figures.References(c.figures));
    var out := RewriteText(c.out, REST, rewrite);
    forall k | 0 <= k < |c.out| ensures Safe(out[k], 0) && Safe(c.out[k], 0) {
      RewriteTextAt(c.out, REST, rewrite, k);
      RewrittenIsSafe(c.figures, c.out[k]);
    }
  }

  // ---------------------------------------------------------------- equations

  lemma {:induction false} SafeIsNoDelimiter(line: string)
    requires Safe(line, 0)
    ensures EquationEnd(TrimSpace(line)) == ""
    decreases |line|
  {
    if line == "" {
    } else if IsSpace(line[0]) {
      SafeIsNoDelimiter(line[1..]);
    } else if IsSpace(line[|line| - 1]) {
      assert line == line[..|line| - 1] + [line[|line| - 1]];
      SafePrefix(line[..|line| - 1], [line[|line| - 1]], 0);
      SafeIsNoDelimiter(line[..|line| - 1]);
    } else {
      assert TrimSpace(line) == line;
      assert !Safe("$$", 0);
      assert !Safe("\\[", 0) by { assert "\\["[1..] == "["; assert !Safe("[", 1); }
    }
  }

  /** Without display blocks the equation pass does nothing. */
  lemma {:induction false} NoEquations(c: Equations.Collected, lines: seq<string>, i: nat, fence: string)
    requires i <= |lines| && forall k :: 0 <= k < |lines| ==> EquationEnd(TrimSpace(lines[k])) == ""
    ensures Equations.Emit(c, Equations.Steps(lines, i, fence)) == Equations.Collected(c.out + lines[i..], c.equations)
    decreases |lines| - i
  {
    hide Equations.Emit, Equations.Steps, FenceMarker, TrimSpace;
    if i == |lines| {
      Equations.NoMoreSteps(c, lines, fence);
      assert c.out + lines[i..] == c.out;
    } else {
      var (step, next) := Equations.NextStep(lines, i, fence);
      Equations.EmitNextStep(c, lines, i, fence);
      Equations.CopiedThen(c, step);
      NoEquations(c.Then(step), lines, next, Equations.AfterStep(fence, step));
      assert (c.out + [lines[i]]) + lines[i + 1..] == c.out + lines[i..];
    }
  }

  lemma EquationsStaySafe(lines: seq<string>)
    requires AllSafe(lines)
    ensures Equations.Prepared(lines) == lines
  {
    hide Safe, Equations.Emit, Equations.Steps, TrimSpace;
    forall k | 0 <= k < |lines| ensures EquationEnd(TrimSpace(lines[k])) == "" { SafeIsNoDelimiter(lines[k]); }
    NoEquations(Equations.NONE_YET, lines, 0, "");
    assert [] + lines[0..] == lines;
    assert Equations.References([]) == map[];
  }

  // ---------------------------------------------------------------- the source

  lemma NewlineFirst(s: string, pat: string)
    requires pat != "" && pat <= s
    ensures ReplaceAll(s, pat, "\n") != "" && ReplaceAll(s, pat, "\n")[0] == '\n'
  {
  }

  lemma {:induction false} PrefixBeforeNewlines(s: string, pat: string, part: string)
    requires (pat == "\r\n" || pat == "\r") && '\n' !in part
    ensures part <= ReplaceAll(s, pat, "\n") ==> part <= s
    decreases |s|
  {
    if pat <= s { NewlineFirst(s, pat); }
    if s != "" && part != "" && !(pat <= s) && part <= ReplaceAll(s, pat, "\n") {
      var rest := ReplaceAll(s[1..], pat, "\n");
      assert part[0] == ([s[0]] + rest)[0] == s[0];
      assert part[1..] <= rest by { assert ([s[0]] + rest)[1..] == rest && ([s[0]] + rest)[..|part|][1..] == rest[..|part| - 1]; }
      PrefixBeforeNewlines(s[1..], pat, part[1..]);
      assert part == [s[0]] + part[1..] && s == [s[0]] + s[1..];
    }
  }

  lemma {:induction false} PartBeforeNewlines(s: string, pat: string, part: string, j: nat) returns (k: nat)
    requires (pat == "\r\n" || pat == "\r") && '\n' !in part && part != ""
    requires j <= |ReplaceAll(s, pat, "\n")| && part <= ReplaceAll(s, pat, "\n")[j..]
    ensures k <= |s| && part <= s[k..]
    decreases |s|
  {
    var out := ReplaceAll(s, pat, "\n");
    k := 0;
    if j == 0 {
      assert out[0..] == out && s[0..] == s;
      PrefixBeforeNewlines(s, pat, part);
    } else if pat <= s {
      assert out[j..] == ReplaceAll(s[|pat|..], pat, "\n")[j - 1..];
      k := PartBeforeNewlines(s[|pat|..], pat, part, j - 1);
      k := |pat| + k;
    } else if s != "" {
      assert out[j..] == ReplaceAll(s[1..], pat, "\n")[j - 1..];
      k := PartBeforeNewlines(s[1..], pat, part, j - 1);
      k := 1 + k;
    }
  }

  lemma NewlinesMakeNoPart(s: string, pat: string, part: string)
    requires (pat == "\r\n" || pat == "\r") && '\n' !in part && part != "" && !Contains(s, part)
    ensures !Contains(ReplaceAll(s, pat, "\n"), part)
  {
    var out := ReplaceAll(s, pat, "\n");
    if Contains(out, part) {
      var j :| 0 <= j <= |out| && part <= out[j..];
      var k := PartBeforeNewlines(s, pat, part, j);
    }
  }

  lemma {:induction false} LinesHaveNoPart(s: string, part: string)
    requires !Contains(s, part)
    ensures forall k :: 0 <= k < |Split(s)| ==> !Contains(Split(s)[k], part)
    decreases |s|
  {
    hide Contains;
    match FirstNewline(s) {
      case None =>
      case Some(i) =>
        PartOfText(s, 0, i, part);
        PartOfText(s, i + 1, |s|, part);
        assert s[0..i] == s[..i] && s[i + 1..|s|] == s[i + 1..];
        LinesHaveNoPart(s[i + 1..], part);
    }
  }

  lemma PartOfText(s: string, a: nat, b: nat, part: string)
    requires a <= b <= |s| && !Contains(s, part)
    ensures !Contains(s[a..b], part)
  {
    forall i | 0 <= i <= |s[a..b]| ensures !(part <= s[a..b][i..]) {
      assert !(part <= s[a + i..]);
      assert s[a..b][i..] == s[a + i..b] == s[a + i..][..b - a - i];
      PrefixChain(part, s[a..b][i..], s[a + i..]);
    }
  }

  lemma PrefixChain(a: string, b: string, c: string)
    requires b <= c
    ensures a <= b ==> a <= c
  {
  }

  /** No reference of the source has a backslash directly before its own. */
  ghost predicate NoEscapedReference(source: string) {
    NoneEscaped(REF, source) && NoneEscaped(FIGREF, source)
  }

  lemma SourceLinesGood(source: string)
    requires Safe(source, 0) && NoEscapedReference(source)
    ensures AllGood(Split(UnixNewlines(source)))
  {
    hide Contains, Safe, Split;
    var once := ReplaceAll(source, "\r\n", "\n");
    var text := UnixNewlines(source);
    SafeUnix(source);
    SafeLines(text);
    EscapedParts();
    NewlinesMakeNoPart(source, "\r\n", Escaped(REF));
    NewlinesMakeNoPart(once, "\r", Escaped(REF));
    LinesHaveNoPart(text, Escaped(REF));
    NewlinesMakeNoPart(source, "\r\n", Escaped(FIGREF));
    NewlinesMakeNoPart(once, "\r", Escaped(FIGREF));
    LinesHaveNoPart(text, Escaped(FIGREF));
  }

  lemma EscapedParts()
    ensures '\n' !in Escaped(REF) && '\n' !in Escaped(FIGREF)
  {
  }

  /** Of a source whose references all stand without a backslash before them, the passes make no math that was not
      there: when anything is protected, the source as it was written is found to need math. */
  lemma SourceShowsItsMath(source: string)
    requires NoEscapedReference(source)
    ensures ProtectDocument(Prepare(source)).spans != [] ==> NeedsMath(source)
  {
    hide Safe, HasOpener, NoEscapedReference, Split, Join, UnixNewlines, Figures.Prepared, Equations.Prepared, AllGood, AllSafe;
    if !HasOpener(source) {
      SafeIffNoOpener(source);
      SourceLinesGood(source);
      var lines := Split(UnixNewlines(source));
      FiguresStaySafe(lines);
      LinesSafe(Figures.Prepared(lines));
      var between := Join(Figures.Prepared(lines));
      SafeUnix(between);
      SafeLines(UnixNewlines(between));
      EquationsStaySafe(Split(UnixNewlines(between)));
      LinesSafe(Split(UnixNewlines(between)));
      SafeIffNoOpener(Prepare(source));
      if ProtectDocument(Prepare(source)).spans != [] { ProtectedMathOpens(Prepare(source)); }
    } else {
      OpenerNeedsMath(source);
    }
  }

  lemma OpenerNeedsMath(source: string)
    requires HasOpener(source)
    ensures NeedsMath(source)
  {
  }
}
