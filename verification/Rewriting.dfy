/** Rewriting a reference inside a line of text does not make the line something the scanner reacts to. */
module Rewriting {
  import opened Text
  import opened Substitution
  import opened MarkdownLines
  import opened Patterns
  import opened LineScanner
  import opened Links

  predicate FenceChar(c: char) { c == '`' || c == '~' }

  /** What a rewritten reference looks like: "[1](#eq-a)", "??" and the like. */
  predicate Shows(text: string) {
    && text != ""
    && !IsSpace(text[0])
    && !FenceChar(text[0])
    && ('#' in text || '?' in text)
  }

  /** A text as it was, or one that is as it was up to a rewritten reference. */
  predicate Shown(was: string, is_: string) {
    is_ == was || exists p :: 0 <= p <= |was| && p <= |is_| && is_[..p] == was[..p] && Shows(is_[p..])
  }

  lemma ShownAfter(head: string, was: string, is_: string)
    requires Shown(was, is_)
    ensures Shown(head + was, head + is_)
  {
    hide Shows;
    if is_ != was {
      var p :| 0 <= p <= |was| && p <= |is_| && is_[..p] == was[..p] && Shows(is_[p..]);
      var q := |head| + p;
      assert (head + is_)[q..] == is_[p..];
      assert (head + is_)[..q] == head + is_[..p] && (head + was)[..q] == head + was[..p];
    }
  }

  lemma ShowsMore(text: string, rest: string)
    requires Shows(text)
    ensures Shows(text + rest)
  {
  }

  ghost predicate Rewrites(by_: (string, string) -> string) {
    forall content, raw :: by_(content, raw) == raw || Shows(by_(content, raw))
  }

  lemma {:induction false} ReplacedIsShown(command: Command, s: string, i: nat, by_: (string, string) -> string)
    requires i <= |s| && Rewrites(by_)
    ensures Shown(s[i..], command.ReplaceFrom(s, i, by_))
    decreases |s| - i
  {
    hide Shows, Shown, Command.MatchAt;
    if i == |s| {
      NothingShown(s[i..], command.ReplaceFrom(s, i, by_));
    } else {
      match command.MatchAt(s, i)
      case Some(m) =>
        var raw, rest := s[i..m.end], command.ReplaceFrom(s, m.end, by_);
        ReplacedIsShown(command, s, m.end, by_);
        assert s[i..] == raw + s[m.end..];
        if by_(m.content, raw) == raw {
          ShownAfter(raw, s[m.end..], rest);
        } else {
          ShowsMore(by_(m.content, raw), rest);
          ShownAtOnce(s[i..], by_(m.content, raw) + rest);
        }
      case None =>
        ReplacedIsShown(command, s, i + 1, by_);
        assert s[i..] == [s[i]] + s[i + 1..];
        ShownAfter([s[i]], s[i + 1..], command.ReplaceFrom(s, i + 1, by_));
    }
  }

  lemma NothingShown(was: string, is_: string)
    requires was == is_
    ensures Shown(was, is_)
  {
  }

  lemma ShownAtOnce(was: string, is_: string)
    requires Shows(is_)
    ensures Shown(was, is_)
  {
    assert is_[0..] == is_ && is_[..0] == was[..0];
  }

  // ---------------------------------------------------------------- what the scanner looks at

  /** A fence stands at `a`: only white space before it, and three equal fence characters. */
  predicate FenceAt(s: string, a: nat) {
    a + 3 <= |s| && AllSpace(s[..a]) && FenceChar(s[a]) && s[a] == s[a + 1] == s[a + 2]
  }

  lemma RunOfThree(s: string)
    ensures FenceMarker(s) != "" <==> |s| >= 3 && FenceChar(s[0]) && s[0] == s[1] == s[2]
  {
    if |s| >= 3 {
      assert RunLength(s, s[0]) >= 3 <==> s[0] == s[1] == s[2] by {
        assert s[1..][1..] == s[2..];
        assert RunLength(s, s[0]) == 1 + RunLength(s[1..], s[0]);
        assert s[1] == s[0] ==> RunLength(s[1..], s[0]) == 1 + RunLength(s[2..], s[0]);
        assert s[2] == s[0] ==> RunLength(s[2..], s[0]) >= 1;
      }
    }
  }

  lemma {:induction false} FenceFound(s: string) returns (a: nat)
    requires FenceMarker(TrimSpace(s)) != ""
    ensures FenceAt(s, a)
  {
    hide IsSpace, FenceMarker;
    RunOfThree(TrimSpace(s));
    if s == "" || (!IsSpace(s[0]) && !IsSpace(s[|s| - 1])) {
      a := 0;
      assert s[..0] == "";
    } else if IsSpace(s[0]) {
      var b := FenceFound(s[1..]);
      a := b + 1;
      assert s[..a] == [s[0]] + s[1..][..b];
    } else {
      a := FenceFound(s[..|s| - 1]);
      assert s[..|s| - 1][..a] == s[..a];
    }
  }

  lemma {:induction false} FenceShows(s: string, a: nat)
    requires FenceAt(s, a)
    ensures FenceMarker(TrimSpace(s)) != ""
    decreases |s|
  {
    hide FenceMarker, FenceChar, TrimSpace;
    assert !IsSpace(s[a]) && !IsSpace(s[a + 2]) by { FenceIsNoSpace(s[a]); }
    if a > 0 {
      assert s[0] == s[..a][0] && s[1..][..a - 1] == s[..a][1..];
      FenceShows(s[1..], a - 1);
      TrimFirst(s);
    } else if IsSpace(s[|s| - 1]) {
      assert s[..|s| - 1][..0] == "";
      FenceShows(s[..|s| - 1], 0);
      TrimLast(s);
    } else {
      assert TrimSpace(s) == s;
      RunOfThree(s);
    }
  }

  lemma FenceIsNoSpace(c: char)
    ensures FenceChar(c) ==> !IsSpace(c)
  {
  }

  lemma TrimFirst(s: string)
    requires s != "" && IsSpace(s[0])
    ensures TrimSpace(s) == TrimSpace(s[1..])
  {
  }

  lemma TrimLast(s: string)
    requires s != "" && !IsSpace(s[0]) && IsSpace(s[|s| - 1])
    ensures TrimSpace(s) == TrimSpace(s[..|s| - 1])
  {
  }

  lemma {:induction false} TrimKeeps(s: string, c: char)
    requires c in s && !IsSpace(c)
    ensures c in TrimSpace(s)
    decreases |s|
  {
    if IsSpace(s[0]) {
      TrimKeeps(s[1..], c);
    } else if IsSpace(s[|s| - 1]) {
      TrimKeeps(s[..|s| - 1], c);
    }
  }

  lemma ShownHasNoDelimiter(was: string, is_: string)
    requires Shown(was, is_) && EquationEnd(TrimSpace(was)) == ""
    ensures EquationEnd(TrimSpace(is_)) == ""
  {
    hide TrimSpace;
    if is_ != was {
      var p :| 0 <= p <= |was| && p <= |is_| && is_[..p] == was[..p] && Shows(is_[p..]);
      var c := if '#' in is_[p..] then '#' else '?';
      assert c in is_[p..] && c in is_;
      TrimKeeps(is_, c);
    }
  }

  lemma ShownHasNoFence(was: string, is_: string)
    requires Shown(was, is_) && FenceMarker(TrimSpace(was)) == ""
    ensures FenceMarker(TrimSpace(is_)) == ""
  {
    hide TrimSpace, FenceMarker;
    if is_ != was && FenceMarker(TrimSpace(is_)) != "" {
      var p :| 0 <= p <= |was| && p <= |is_| && is_[..p] == was[..p] && Shows(is_[p..]);
      var a := FenceFound(is_);
      FencesAgree(was, is_, p, a);
      FenceShows(was, a);
    }
  }

  lemma FencesAgree(was: string, is_: string, p: nat, a: nat)
    requires p <= |was| && p <= |is_| && is_[..p] == was[..p] && Shows(is_[p..]) && FenceAt(is_, a)
    ensures FenceAt(was, a)
  {
    hide IsSpace;
    var c := is_[p];
    assert c == is_[p..][0] && !FenceChar(c) && !IsSpace(c);
    assert forall k :: 0 <= k < a ==> IsSpace(is_[k]) by {
      forall k | 0 <= k < a ensures IsSpace(is_[k]) { assert is_[..a][k] == is_[k]; }
    }
    assert a + 3 <= p;
    assert forall k :: 0 <= k < p ==> was[k] == was[..p][k] == is_[..p][k] == is_[k];
    assert was[..a] == is_[..a];
  }

  /** Rewriting by one command keeps a line of text a line of text. */
  lemma ReplacingKeepsText(command: Command, line: string, by_: (string, string) -> string)
    requires Rewrites(by_) && Unremarkable(line)
    ensures Unremarkable(command.ReplaceFrom(line, 0, by_))
  {
    hide Rewrites, Shown, EquationEnd, FenceMarker, TrimSpace, Command.ReplaceFrom;
    ReplacedIsShown(command, line, 0, by_);
    assert line[0..] == line;
    ShownHasNoDelimiter(line, command.ReplaceFrom(line, 0, by_));
    ShownHasNoFence(line, command.ReplaceFrom(line, 0, by_));
  }

  lemma LinkShows(text: string, anchor: string)
    ensures Shows("[" + text + "](#" + anchor + ")")
  {
    var link := "[" + text + "](#" + anchor + ")";
    assert link[|text| + 3] == '#';
  }

  lemma UnknownShows()
    ensures Shows("??") && Shows("(??)") && Shows("Figure ??")
  {
    assert "??"[0] == '?' && "(??)"[1] == '?' && "Figure ??"[7] == '?';
  }
}
