/** Commands such as `\label{...}` as they are written in a text, against the scanners that find them. */
module Commands {
  import opened Text
  import opened Patterns

  // ---------------------------------------------------------------- commands as they are written

  /** `head`, this content and a closing brace stand at `i`. */
  ghost predicate Stands(s: string, i: nat, command: Command, content: string) {
    && '}' !in content
    && (content != "" || command.emptyGroup)
    && i + |command.head| + |content| < |s|
    && s[i..i + |command.head|] == command.head
    && s[i + |command.head|..i + |command.head| + |content|] == content
    && s[i + |command.head| + |content|] == '}'
  }

  ghost predicate FirstWritten(s: string, command: Command, content: string) {
    exists k: nat :: WrittenFirstAt(s, 0, command, content, k)
  }

  /** It stands at `k`, and none is written between `i` and there. */
  ghost predicate WrittenFirstAt(s: string, i: nat, command: Command, content: string, k: nat) {
    && i <= k < |s|
    && Stands(s, k, command, content)
    && forall j, c :: i <= j < k ==> !Stands(s, j, command, c)
  }

  lemma {:induction false} FindIs(s: string, i: nat, c: char, k: nat)
    requires i <= k < |s| && s[k] == c && forall j :: i <= j < k ==> s[j] != c
    ensures Find(s, i, c) == Some(k)
    decreases k - i
  {
    if i < k { FindIs(s, i + 1, c, k); }
  }

  lemma MatchIsWritten(command: Command, s: string, i: nat)
    requires command.head != ""
    ensures match command.MatchAt(s, i)
      case Some(m) => i < |s| && Stands(s, i, command, m.content)
      case None => forall c :: !Stands(s, i, command, c)
  {
    hide Command.MatchAt, Stands;
    forall c | Stands(s, i, command, c)
      ensures command.MatchAt(s, i) == Some(Match(c, i + |command.head| + |c| + 1))
    {
      WrittenMatches(command, s, i, c);
    }
    if command.MatchAt(s, i).Some? { MatchWritten(command, s, i); }
  }

  lemma MatchWritten(command: Command, s: string, i: nat)
    requires command.head != "" && command.MatchAt(s, i).Some?
    ensures i < |s| && Stands(s, i, command, command.MatchAt(s, i).value.content)
  {
  }

  lemma WrittenMatches(command: Command, s: string, i: nat, c: string)
    requires Stands(s, i, command, c)
    ensures command.MatchAt(s, i) == Some(Match(c, i + |command.head| + |c| + 1))
  {
    var from := i + |command.head|;
    forall j | from <= j < from + |c| ensures s[j] != '}' {
      assert s[j] == s[from..from + |c|][j - from];
    }
    FindIs(s, from, '}', from + |c|);
  }

  /** The group that is captured is that of the command written first; nothing is captured if none is written. */
  lemma {:induction false} FirstIsWritten(command: Command, s: string, i: nat) returns (k: nat)
    requires command.head != ""
    ensures match command.First(s, i)
      case Some(c) => WrittenFirstAt(s, i, command, c, k)
      case None => forall k: nat, c :: i <= k ==> !Stands(s, k, command, c)
    decreases |s| - i
  {
    hide Command.MatchAt, Stands;
    k := i;
    if i < |s| {
      MatchIsWritten(command, s, i);
      if command.MatchAt(s, i).None? {
        k := FirstIsWritten(command, s, i + 1);
      }
    } else {
      NothingBeyond(command, s, i);
    }
  }

  lemma NothingBeyond(command: Command, s: string, i: nat)
    requires i >= |s|
    ensures forall k: nat, c :: i <= k ==> !Stands(s, k, command, c)
  {
  }

  lemma OneContent(command: Command, s: string, i: nat, c: string, c': string)
    requires Stands(s, i, command, c) && Stands(s, i, command, c')
    ensures c == c'
  {
    WrittenMatches(command, s, i, c);
    WrittenMatches(command, s, i, c');
  }

  lemma FirstIff(command: Command, s: string, content: string)
    requires command.head != ""
    ensures command.First(s, 0) == Some(content) <==> FirstWritten(s, command, content)
  {
    hide Command.First, Stands;
    var k' := FirstIsWritten(command, s, 0);
    if FirstWritten(s, command, content) {
      var k: nat :| WrittenFirstAt(s, 0, command, content, k);
      assert k == k';
      OneContent(command, s, k, command.First(s, 0).value, content);
    }
  }

  /** Where a part of a text stands if the text itself stands at `i`. */
  lemma PartAt(s: string, i: nat, end: nat, before: string, part: string, after: string)
    requires i <= end <= |s| && s[i..end] == before + part + after
    ensures At(s, i + |before|, part)
  {
    assert s[i..end][|before|..|before| + |part|] == part;
    assert |s[i..end]| == |before| + |part| + |after|;
    forall j | 0 <= j < |part| ensures s[i + |before| + j] == part[j] {
      assert s[i..end][|before| + j] == part[j];
    }
  }

  lemma StandsBetween(before: string, command: Command, content: string, after: string)
    requires '}' !in content && content != ""
    ensures Stands(before + (command.head + content + "}") + after, |before|, command, content)
  {
    var s := before + (command.head + content + "}") + after;
    PartAt(s, 0, |s|, before, command.head, content + "}" + after);
    PartAt(s, 0, |s|, before + command.head, content, "}" + after);
    assert s[0..|s|] == s;
    assert s[|before| + |command.head| + |content|] == '}';
  }

  lemma EmptyWritten(before: string, command: Command, after: string)
    requires command.emptyGroup
    ensures Stands(before + (command.head + "}") + after, |before|, command, "")
  {
    var s := before + (command.head + "}") + after;
    PartAt(s, 0, |s|, before, command.head, "}" + after);
    assert s[0..|s|] == s;
    assert s[|before| + |command.head|] == '}';
  }

  /** Commands begin with a backslash and go on with their name. */
  lemma WrittenBegins(s: string, i: nat, command: Command, content: string)
    requires Stands(s, i, command, content) && |command.head| > 1
    ensures i + 1 < |s| && s[i] == command.head[0] && s[i + 1] == command.head[1]
  {
    assert s[i..i + |command.head|][0] == s[i] && s[i..i + |command.head|][1] == s[i + 1];
  }

  /** The trimmed content of the command written first, if there is any in it. */
  ghost predicate Says(body: string, command: Command, said: string) {
    said != "" && exists content :: FirstWritten(body, command, content) && TrimSpace(content) == said
  }

  lemma SaysIs(body: string, command: Command, said: string)
    requires command.head != ""
    ensures Says(body, command, said) <==> said != "" && TrimSpace(command.First(body, 0).GetOr("")) == said
  {
    hide Command.First, FirstWritten, TrimSpace;
    forall content { FirstIff(command, body, content); }
    assert TrimSpace("") == "" by { BlankTrims(); }
    if command.First(body, 0).Some? {
      assert FirstWritten(body, command, command.First(body, 0).value);
    }
  }

  lemma BlankTrims()
    ensures TrimSpace("") == ""
  {
  }

  // ---------------------------------------------------------------- rewriting

  /** A text as the commands in it and its other characters. */
  datatype Piece = Lit(c: char) | Call(content: string)

  function Source(piece: Piece, command: Command): string {
    match piece case Lit(c) => [c] case Call(content) => command.head + content + "}"
  }

  /** From left to right, every command is read where it starts. */
  ghost predicate Reads(s: string, i: nat, command: Command, pieces: seq<Piece>)
    decreases |pieces|
  {
    if pieces == [] then i == |s|
    else
      && i < |s|
      && (match pieces[0]
          case Lit(c) => c == s[i] && forall content :: !Stands(s, i, command, content)
          case Call(content) => Stands(s, i, command, content))
      && Reads(s, i + |Source(pieces[0], command)|, command, pieces[1..])
  }

  /** What the pieces become when each command is replaced by what `by_` makes of it. */
  function Rewritten(pieces: seq<Piece>, command: Command, by_: (string, string) -> string): string {
    if pieces == [] then ""
    else
      (match pieces[0] case Lit(c) => [c] case Call(content) => by_(content, Source(pieces[0], command)))
      + Rewritten(pieces[1..], command, by_)
  }

  lemma MatchEnd(command: Command, s: string, i: nat)
    requires command.MatchAt(s, i).Some?
    ensures var m := command.MatchAt(s, i).value;
            i <= m.end <= |s| && m.end == i + |command.head| + |m.content| + 1 && s[i..m.end] == Source(Call(m.content), command)
  {
    var m := command.MatchAt(s, i).value;
    var h := i + |command.head|;
    assert s[i..m.end] == s[i..h] + s[h..m.end - 1] + [s[m.end - 1]];
  }

  /** Replacing all matches is rewriting the commands that are read. */
  lemma {:induction false} ReplacesWhatIsRead(command: Command, s: string, i: nat, by_: (string, string) -> string)
    returns (pieces: seq<Piece>)
    requires command.head != "" && i <= |s|
    ensures Reads(s, i, command, pieces) && command.ReplaceFrom(s, i, by_) == Rewritten(pieces, command, by_)
    decreases |s| - i
  {
    hide Command.MatchAt, Stands;
    pieces := [];
    if i < |s| {
      MatchIsWritten(command, s, i);
      match command.MatchAt(s, i)
      case Some(m) =>
        MatchEnd(command, s, i);
        var rest := ReplacesWhatIsRead(command, s, m.end, by_);
        pieces := [Call(m.content)] + rest;
        assert pieces[1..] == rest;
      case None =>
        var rest := ReplacesWhatIsRead(command, s, i + 1, by_);
        pieces := [Lit(s[i])] + rest;
        assert pieces[1..] == rest;
    }
  }

  /** A text is read in one way. */
  lemma {:induction false} OneReading(s: string, i: nat, command: Command, pieces: seq<Piece>, pieces': seq<Piece>)
    requires Reads(s, i, command, pieces) && Reads(s, i, command, pieces')
    ensures pieces == pieces'
    decreases |pieces|
  {
    hide Stands;
    if pieces != [] {
      if pieces[0].Call? && pieces'[0].Call? { OneContent(command, s, i, pieces[0].content, pieces'[0].content); }
      assert pieces[0] == pieces'[0];
      OneReading(s, i + |Source(pieces[0], command)|, command, pieces[1..], pieces'[1..]);
    }
  }
}
