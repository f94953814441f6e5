/** Lines of a Markdown source: splitting, code fences and display-equation delimiters. */
module MarkdownLines {
  import opened Text

  // ---------------------------------------------------------------- splitting

  function FirstNewline(s: string): (r: Option<nat>)
    ensures r.None? ==> '\n' !in s
    ensures r.Some? ==> r.value < |s| && s[r.value] == '\n' && '\n' !in s[..r.value]
  {
    if s == "" then None
    else if s[0] == '\n' then Some(0)
    else
      assert s == [s[0]] + s[1..];
      match FirstNewline(s[1..])
      case None => None
      case Some(i) =>
        assert s[..i + 1] == [s[0]] + s[1..][..i];
        Some(i + 1)
  }

  /** `strings.SplitAfter(s, "\n")`. */
  function SplitAfter(s: string): (lines: seq<string>)
    ensures Concat(lines) == s
    decreases |s|
  {
    match FirstNewline(s)
    case None => [s]
    case Some(i) => [s[..i + 1]] + SplitAfter(s[i + 1..])
  }

  predicate OneLineEach(lines: seq<string>) {
    forall k :: 0 <= k < |lines| ==> '\n' !in lines[k]
  }

  /** `strings.Split(s, "\n")`. */
  function Split(s: string): (lines: seq<string>)
    ensures lines != [] && OneLineEach(lines)
    decreases |s|
  {
    match FirstNewline(s)
    case None => [s]
    case Some(i) => [s[..i]] + Split(s[i + 1..])
  }

  /** `strings.Join(lines, "\n")`. */
  function Join(lines: seq<string>): string {
    if lines == [] then ""
    else if |lines| == 1 then lines[0]
    else lines[0] + "\n" + Join(lines[1..])
  }

  lemma {:induction false} FirstNewlineOf(line: string, rest: string)
    requires '\n' !in line
    ensures FirstNewline(line + "\n" + rest) == Some(|line|)
  {
    var s := line + "\n" + rest;
    if line != "" {
      assert s[0] == line[0] != '\n';
      assert s[1..] == line[1..] + "\n" + rest;
      FirstNewlineOf(line[1..], rest);
    }
  }

  lemma {:induction false} SplitJoin(lines: seq<string>)
    requires lines != [] && OneLineEach(lines)
    ensures Split(Join(lines)) == lines
  {
    if |lines| > 1 {
      SplitJoin(lines[1..]);
      SplitFirstLine(lines[0], Join(lines[1..]));
    } else {
      assert Join(lines) == lines[0];
      assert FirstNewline(lines[0]) == None;
    }
  }

  lemma SplitFirstLine(line: string, rest: string)
    requires '\n' !in line
    ensures Split(line + "\n" + rest) == [line] + Split(rest)
  {
    var s := line + "\n" + rest;
    FirstNewlineOf(line, rest);
    assert s[..|line|] == line && s[|line| + 1..] == rest;
  }

  lemma SplitOneLine(line: string)
    requires '\n' !in line
    ensures Split(line) == [line]
  {
  }

  lemma {:induction false} SplitAppend(a: string, b: string)
    ensures Split(a + "\n" + b) == Split(a) + Split(b)
    decreases |a|
  {
    hide Split;
    match FirstNewline(a)
    case None =>
      SplitFirstLine(a, b);
      SplitOneLine(a);
    case Some(i) =>
      var line, rest := a[..i], a[i + 1..];
      assert a == line + "\n" + rest && a + "\n" + b == line + "\n" + (rest + "\n" + b);
      SplitFirstLine(line, rest + "\n" + b);
      SplitFirstLine(line, rest);
      SplitAppend(rest, b);
  }

  /** Text without a line break goes to the end of the last line. */
  lemma {:induction false} SplitExtends(a: string, b: string)
    requires '\n' !in b
    ensures Split(a + b) == Split(a)[..|Split(a)| - 1] + [Split(a)[|Split(a)| - 1] + b]
    decreases |a|
  {
    hide Split;
    match FirstNewline(a)
    case None =>
      SplitOneLine(a);
      SplitOneLine(a + b);
    case Some(i) =>
      var line, rest := a[..i], a[i + 1..];
      assert a == line + "\n" + rest && a + b == line + "\n" + (rest + b);
      SplitFirstLine(line, rest + b);
      SplitFirstLine(line, rest);
      SplitExtends(rest, b);
      var lines := Split(rest);
      assert ([line] + lines)[..|lines|] == [line] + lines[..|lines| - 1];
  }

  // ---------------------------------------------------------------- code fences

  function RunLength(s: string, c: char): (n: nat)
    ensures n <= |s| && forall i :: 0 <= i < n ==> s[i] == c
    ensures n < |s| ==> s[n] != c
  {
    if s == "" || s[0] != c then 0 else 1 + RunLength(s[1..], c)
  }

  /** The fence a trimmed line opens with, or the empty string. */
  function FenceMarker(trimmed: string): string {
    if |trimmed| < 3 || (trimmed[0] != '`' && trimmed[0] != '~') then ""
    else
      var count := RunLength(trimmed, trimmed[0]);
      if count < 3 then "" else trimmed[..count]
  }

  predicate ClosesFence(trimmed: string, marker: string) {
    marker != "" && marker <= trimmed
  }

  method MarkdownFenceMarker(trimmed: string) returns (marker: string)
    ensures marker == FenceMarker(trimmed)
  {
    if |trimmed| < 3 { return ""; }
    var ch := trimmed[0];
    if ch != '`' && ch != '~' { return ""; }
    var count := 0;
    while count < |trimmed| && trimmed[count] == ch
      invariant count <= |trimmed| && forall i :: 0 <= i < count ==> trimmed[i] == ch
    {
      count := count + 1;
    }
    assert count == RunLength(trimmed, ch);
    if count < 3 { return ""; }
    marker := seq(count, _ => ch);
    assert marker == trimmed[..count];
  }

  method ClosesMarkdownFence(trimmed: string, marker: string) returns (closes: bool)
    ensures closes == ClosesFence(trimmed, marker)
  {
    if marker == "" || |trimmed| < |marker| { return false; }
    for i := 0 to |marker|
      invariant trimmed[..i] == marker[..i]
    {
      if trimmed[i] != marker[i] {
        assert trimmed[..|marker|][i] != marker[i];
        return false;
      }
      assert trimmed[..i + 1] == trimmed[..i] + [trimmed[i]] && marker[..i + 1] == marker[..i] + [marker[i]];
    }
    return true;
  }

  /** The fence that is open after a line that carries a fence marker; "" when none is. */
  function NextFence(fence: string, trimmed: string): string
    requires FenceMarker(trimmed) != ""
  {
    if fence == "" then FenceMarker(trimmed)
    else if ClosesFence(trimmed, fence) then ""
    else fence
  }

  // ---------------------------------------------------------------- display equations

  /** The delimiter that ends the display block a trimmed line opens, or the empty string. */
  function EquationEnd(trimmed: string): string {
    if trimmed == "$$" then "$$" else if trimmed == "\\[" then "\\]" else ""
  }

  /** The first line from `start` on that trims to `target`. */
  function FindLine(lines: seq<string>, start: nat, target: string): (r: Option<nat>)
    requires start <= |lines|
    ensures r.Some? ==> start <= r.value < |lines| && TrimSpace(lines[r.value]) == target
    ensures r.Some? ==> forall i :: start <= i < r.value ==> TrimSpace(lines[i]) != target
    ensures r.None? ==> forall i :: start <= i < |lines| ==> TrimSpace(lines[i]) != target
    decreases |lines| - start
  {
    if start == |lines| then None
    else if TrimSpace(lines[start]) == target then Some(start)
    else FindLine(lines, start + 1, target)
  }

  method FindLineIndex(lines: seq<string>, start: nat, target: string) returns (r: int)
    requires start <= |lines|
    ensures r == match FindLine(lines, start, target) case None => -1 case Some(i) => i
  {
    var i := start;
    while i < |lines|
      invariant start <= i <= |lines|
      invariant FindLine(lines, start, target) == FindLine(lines, i, target)
    {
      if TrimSpace(lines[i]) == target { return i; }
      i := i + 1;
    }
    return -1;
  }
}
