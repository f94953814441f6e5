/** The regular expressions of the reference passes, as scanners: leftmost matches whose content runs to the
    first closing character, which the content class excludes. */
module Patterns {
  import opened Text

  /** The first `c` at or after `i`. */
  function Find(s: string, i: nat, c: char): (r: Option<nat>)
    ensures r.Some? ==> i <= r.value < |s| && s[r.value] == c && c !in s[i..r.value]
    decreases |s| - i
  {
    if i >= |s| then None
    else if s[i] == c then Some(i)
    else
      match Find(s, i + 1, c)
      case None => None
      case Some(j) =>
        assert s[i..j] == [s[i]] + s[i + 1..j];
        Some(j)
  }

  /** `content` is what the group captured; the match ends before `end`. */
  datatype Match = Match(content: string, end: nat)

  /** `head` followed by a brace group, as in `\label{...}`; `+` demands a non-empty group, `*` does not. */
  datatype Command = Command(head: string, emptyGroup: bool) {
    function MatchAt(s: string, i: nat): (m: Option<Match>)
      ensures m.Some? ==> i + |head| < m.value.end <= |s|
    {
      if !At(s, i, head) then None
      else match Find(s, i + |head|, '}')
        case None => None
        case Some(j) =>
          if j == i + |head| && !emptyGroup then None
          else Some(Match(s[i + |head|..j], j + 1))
    }

    /** `FindStringSubmatch`: the captured group of the leftmost match. */
    function First(s: string, i: nat): Option<string>
      decreases |s| - i
    {
      if i >= |s| then None
      else match MatchAt(s, i)
        case Some(m) => Some(m.content)
        case None => First(s, i + 1)
    }

    /** `ReplaceAllStringFunc`: each match becomes `by(content, wholeMatch)`. */
    function ReplaceFrom(s: string, i: nat, by_: (string, string) -> string): string
      decreases |s| - i
    {
      if i >= |s| then ""
      else match MatchAt(s, i)
        case Some(m) => by_(m.content, s[i..m.end]) + ReplaceFrom(s, m.end, by_)
        case None => [s[i]] + ReplaceFrom(s, i + 1, by_)
    }
  }

  lemma StartsWithHead(s: string, i: nat, head: string)
    ensures head != "" && At(s, i, head) ==> i < |s| && s[i] == head[0]
    ensures |head| > 1 && At(s, i, head) ==> i + 1 < |s| && s[i + 1] == head[1]
  {
    if head != "" && At(s, i, head) {
      var part := s[i..i + |head|];
      assert part[0] == s[i];
      if |head| > 1 { assert part[1] == s[i + 1]; }
    }
  }

  lemma MatchShape(command: Command, s: string, i: nat)
    requires command.MatchAt(s, i).Some?
    ensures var m := command.MatchAt(s, i).value;
            At(s, i, command.head) && i + |command.head| < m.end <= |s| && s[m.end - 1] == '}'
  {
    hide At;
  }

  lemma {:induction false} NoMatch(command: Command, s: string, i: nat)
    requires forall k :: i <= k < |s| ==> !At(s, k, command.head)
    ensures command.First(s, i).None?
    decreases |s| - i
  {
    if i < |s| { NoMatch(command, s, i + 1); }
  }

  lemma {:induction false} NoMatchKeeps(command: Command, s: string, i: nat, by_: (string, string) -> string)
    requires i <= |s| && forall k :: i <= k < |s| ==> !At(s, k, command.head)
    ensures command.ReplaceFrom(s, i, by_) == s[i..]
    decreases |s| - i
  {
    if i < |s| {
      assert s[i..] == [s[i]] + s[i + 1..];
      NoMatchKeeps(command, s, i + 1, by_);
    }
  }

  lemma ReplaceStep(command: Command, s: string, i: nat, by_: (string, string) -> string)
    requires i < |s|
    ensures command.ReplaceFrom(s, i, by_) == match command.MatchAt(s, i)
      case Some(m) => by_(m.content, s[i..m.end]) + command.ReplaceFrom(s, m.end, by_)
      case None => [s[i]] + command.ReplaceFrom(s, i + 1, by_)
  {
    hide Command.MatchAt;
  }

  /** The group of the first match, which begins at `k`. */
  lemma {:induction false} FirstMatch(command: Command, s: string, i: nat, k: nat)
    requires i <= k < |s| && command.MatchAt(s, k).Some? && forall j :: i <= j < k ==> !At(s, j, command.head)
    ensures command.First(s, i) == Some(command.MatchAt(s, k).value.content)
    decreases k - i
  {
    if i < k { FirstMatch(command, s, i + 1, k); }
  }

  const LABEL := Command("\\label{", false)
  const CAPTION := Command("\\caption{", true)
  const TAG := Command("\\tag{", false)
  const STARRED_TAG := Command("\\tag*{", false)
  const REF := Command("\\ref{", false)
  const EQREF := Command("\\eqref{", false)
  const FIGREF := Command("\\figref{", false)

  /** `\\tag\*?\{([^}]+)\}` */
  function FirstTag(s: string, i: nat): Option<string>
    decreases |s| - i
  {
    if i >= |s| then None
    else if TAG.MatchAt(s, i).Some? then Some(TAG.MatchAt(s, i).value.content)
    else if STARRED_TAG.MatchAt(s, i).Some? then Some(STARRED_TAG.MatchAt(s, i).value.content)
    else FirstTag(s, i + 1)
  }

  /** `!\[([^\]]*)\]\(([^)]+)\)` */
  datatype Image = Image(alt: string, target: string, end: nat)

  function ImageAt(s: string, i: nat): Option<Image> {
    if !At(s, i, "![") then None
    else match Find(s, i + 2, ']')
      case None => None
      case Some(j) =>
        if !At(s, j + 1, "(") then None
        else match Find(s, j + 2, ')')
          case None => None
          case Some(k) =>
            if k == j + 2 then None else Some(Image(s[i + 2..j], s[j + 2..k], k + 1))
  }

  function FirstImage(s: string, i: nat): Option<Image>
    decreases |s| - i
  {
    if i >= |s| then None
    else if ImageAt(s, i).Some? then ImageAt(s, i)
    else FirstImage(s, i + 1)
  }
}
