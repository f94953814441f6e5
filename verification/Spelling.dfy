/** The words of a text, read off it directly: what cleaned IDs, keys and slugs are made of. */
module Spelling {
  import opened Text
  import opened FreshNames
  import opened MenuText

  /** The letter a character shows in a cleaned text, if it shows any. */
  type Speller = char -> Option<char>

  /** Letters and digits, in lower case. Two characters outside ASCII have a lower case in it. */
  function Letter(c: char): Option<char> {
    if 'a' <= c <= 'z' || '0' <= c <= '9' then Some(c)
    else if 'A' <= c <= 'Z' then Some(('a' as int + (c as int - 'A' as int)) as char)
    else if c == '\U{212A}' then Some('k')
    else if c == '\U{0130}' then Some('i')
    else None
  }

  /** The longest runs of characters that show a letter, as they show them. */
  function Words(s: string, letter: Speller): (words: seq<string>)
    ensures forall i :: 0 <= i < |words| ==> words[i] != ""
    ensures s != "" && letter(s[0]).Some? ==> words != [] && words[0][0] == letter(s[0]).value
  {
    if s == "" then []
    else
      var rest := Words(s[1..], letter);
      match letter(s[0])
      case None => rest
      case Some(c) =>
        if |s| > 1 && letter(s[1]).Some? then [[c] + rest[0]] + rest[1..] else [[c]] + rest
  }

  function Spelt(words: seq<string>, separator: char): string {
    if words == [] then "" else JoinOn(words, separator)
  }

  // ---------------------------------------------------------------- trimming and lower case

  lemma {:induction false} WordsOfEnd(s: string, c: char, letter: Speller)
    requires letter(c).None?
    ensures Words(s + [c], letter) == Words(s, letter)
  {
    if s == "" {
      assert [c][1..] == "";
    } else {
      assert (s + [c])[1..] == s[1..] + [c];
      WordsOfEnd(s[1..], c, letter);
    }
  }

  lemma {:induction false} WordsOfTrimmed(s: string, letter: Speller)
    requires forall c :: IsSpace(c) ==> letter(c).None?
    ensures Words(TrimSpace(s), letter) == Words(s, letter)
    decreases |s|
  {
    hide IsSpace;
    if s != "" {
      if IsSpace(s[0]) {
        WordsOfTrimmed(s[1..], letter);
      } else if IsSpace(s[|s| - 1]) {
        WordsOfTrimmed(s[..|s| - 1], letter);
        WordsOfEnd(s[..|s| - 1], s[|s| - 1], letter);
        assert s == s[..|s| - 1] + [s[|s| - 1]];
      }
    }
  }

  lemma {:induction false} WordsOfLower(s: string, letter: Speller)
    requires forall c :: letter(LowerChar(c)) == letter(c)
    ensures Words(Lower(s), letter) == Words(s, letter)
  {
    hide LowerChar;
    if s != "" {
      WordsOfLower(s[1..], letter);
      assert Lower(s)[1..] == Lower(s[1..]);
    }
  }

  // ---------------------------------------------------------------- separators

  /** The characters that show themselves are those that are not replaced. */
  ghost predicate Shows(s: string, letter: Speller, matched: CharClass) {
    forall i :: 0 <= i < |s| ==> if matched(s[i]) then letter(s[i]).None? else letter(s[i]) == Some(s[i])
  }

  lemma SpeltFirst(word: string, rest: seq<string>, separator: char)
    ensures Spelt([word] + rest, separator) == if rest == [] then word else word + [separator] + Spelt(rest, separator)
  {
    assert ([word] + rest)[1..] == rest;
  }

  lemma SpeltLonger(c: char, words: seq<string>, separator: char)
    requires words != []
    ensures Spelt([[c] + words[0]] + words[1..], separator) == [c] + Spelt(words, separator)
  {
    assert words == [words[0]] + words[1..];
    SpeltFirst(words[0], words[1..], separator);
    SpeltFirst([c] + words[0], words[1..], separator);
  }

  ghost function Before(s: string, matched: CharClass, sub: char): string {
    if s != "" && matched(s[0]) then [sub] else ""
  }

  /** What replacing runs leaves of a text. */
  ghost predicate LeavesWords(s: string, letter: Speller, matched: CharClass, sub: char, after: string) {
    && (after == "" || after == [sub])
    && ReplaceRuns(s, matched, sub) == Before(s, matched, sub) + Spelt(Words(s, letter), sub) + after
    && (Words(s, letter) == [] ==> after == "")
  }

  /** The words are left, separated, and perhaps a separator at either end. */
  lemma {:induction false} RunsAreWords(s: string, letter: Speller, matched: CharClass, sub: char) returns (after: string)
    requires Shows(s, letter, matched)
    ensures LeavesWords(s, letter, matched, sub, after)
  {
    hide Shows, LeavesWords;
    if s == "" {
      after := "";
      NothingLeft(letter, matched, sub);
    } else {
      ShowsFirst(s, letter, matched);
      after := RunsAreWords(s[1..], letter, matched, sub);
      if matched(s[0]) {
        SeparatorLeft(s, letter, matched, sub, after);
      } else if |s| > 1 && !matched(s[1]) {
        WordGoesOn(s, letter, matched, sub, after);
      } else {
        after := WordBegins(s, letter, matched, sub, after);
      }
    }
  }

  lemma NothingLeft(letter: Speller, matched: CharClass, sub: char)
    ensures LeavesWords("", letter, matched, sub, "")
  {
  }

  lemma SeparatorLeft(s: string, letter: Speller, matched: CharClass, sub: char, after: string)
    requires s != "" && matched(s[0]) && letter(s[0]).None? && LeavesWords(s[1..], letter, matched, sub, after)
    ensures LeavesWords(s, letter, matched, sub, after)
  {
    hide ReplaceRuns, Words, Spelt;
    RunsStep(s, matched, sub);
    WordsStep(s, letter);
    NothingSpelt(letter, matched, sub);
    var shown := Spelt(Words(s[1..], letter), sub);
    assert [sub] + shown + after == [sub] + ("" + shown + after);
  }

  lemma WordGoesOn(s: string, letter: Speller, matched: CharClass, sub: char, after: string)
    requires |s| > 1 && !matched(s[0]) && !matched(s[1]) && letter(s[0]) == Some(s[0]) && letter(s[1]).Some?
    requires LeavesWords(s[1..], letter, matched, sub, after)
    ensures LeavesWords(s, letter, matched, sub, after)
  {
    hide ReplaceRuns, Words, Spelt;
    RunsStep(s, matched, sub);
    WordsStep(s, letter);
    SpeltLonger(s[0], Words(s[1..], letter), sub);
    var shown := Spelt(Words(s[1..], letter), sub);
    assert [s[0]] + ("" + shown + after) == "" + ([s[0]] + shown) + after;
  }

  lemma WordBegins(s: string, letter: Speller, matched: CharClass, sub: char, after: string) returns (after': string)
    requires s != "" && !matched(s[0]) && letter(s[0]) == Some(s[0]) && (|s| > 1 ==> matched(s[1]) && letter(s[1]).None?)
    requires LeavesWords(s[1..], letter, matched, sub, after)
    ensures LeavesWords(s, letter, matched, sub, after')
  {
    hide LeavesWords;
    if Words(s[1..], letter) == [] {
      LastWord(s, letter, matched, sub, after);
      after' := if |s| > 1 then [sub] else "";
    } else {
      OneOfMore(s, letter, matched, sub, after);
      after' := after;
    }
  }

  lemma LastWord(s: string, letter: Speller, matched: CharClass, sub: char, after: string)
    requires s != "" && !matched(s[0]) && letter(s[0]) == Some(s[0]) && (|s| > 1 ==> matched(s[1]) && letter(s[1]).None?)
    requires LeavesWords(s[1..], letter, matched, sub, after) && Words(s[1..], letter) == []
    ensures LeavesWords(s, letter, matched, sub, if |s| > 1 then [sub] else "")
  {
    hide ReplaceRuns, Words, Spelt;
    RunsStep(s, matched, sub);
    WordsStep(s, letter);
    NothingSpelt(letter, matched, sub);
    SpeltFirst([s[0]], [], sub);
    assert Words(s, letter) == [[s[0]]];
  }

  lemma OneOfMore(s: string, letter: Speller, matched: CharClass, sub: char, after: string)
    requires s != "" && !matched(s[0]) && letter(s[0]) == Some(s[0]) && (|s| > 1 ==> matched(s[1]) && letter(s[1]).None?)
    requires LeavesWords(s[1..], letter, matched, sub, after) && Words(s[1..], letter) != []
    ensures LeavesWords(s, letter, matched, sub, after)
  {
    hide ReplaceRuns, Words, Spelt;
    RunsStep(s, matched, sub);
    WordsStep(s, letter);
    NothingSpelt(letter, matched, sub);
    var rest := Words(s[1..], letter);
    SpeltFirst([s[0]], rest, sub);
    var shown := Spelt(rest, sub);
    assert |s| > 1;
    assert [s[0]] + ([sub] + shown + after) == "" + ([s[0]] + [sub] + shown) + after;
  }

  lemma ShowsFirst(s: string, letter: Speller, matched: CharClass)
    requires Shows(s, letter, matched) && s != ""
    ensures Shows(s[1..], letter, matched)
    ensures letter(s[0]) == if matched(s[0]) then None else Some(s[0])
    ensures |s| > 1 ==> (letter(s[1]).Some? <==> !matched(s[1]))
  {
  }

  lemma NothingSpelt(letter: Speller, matched: CharClass, sub: char)
    ensures ReplaceRuns("", matched, sub) == "" && Words("", letter) == [] && Spelt([], sub) == ""
  {
  }

  lemma RunsStep(s: string, matched: CharClass, sub: char)
    requires s != ""
    ensures var rest := ReplaceRuns(s[1..], matched, sub);
            ReplaceRuns(s, matched, sub)
            == if !matched(s[0]) then [s[0]] + rest else if |s| > 1 && matched(s[1]) then rest else [sub] + rest
  {
  }

  lemma WordsStep(s: string, letter: Speller)
    requires s != ""
    ensures var rest := Words(s[1..], letter);
            Words(s, letter)
            == match letter(s[0])
               case None => rest
               case Some(c) => if |s| > 1 && letter(s[1]).Some? then [[c] + rest[0]] + rest[1..] else [[c]] + rest
    ensures |s| > 1 && letter(s[1]).Some? ==> Words(s[1..], letter) != []
  {
  }

  lemma {:induction false} WordsAreSpelt(s: string, letter: Speller, matched: CharClass, c: char)
    requires Shows(s, letter, matched) && matched(c)
    ensures var h := Spelt(Words(s, letter), c); h != "" ==> h[0] != c && h[|h| - 1] != c
    ensures Words(s, letter) != [] ==> Spelt(Words(s, letter), c) != ""
  {
    if s != "" {
      WordsAreSpelt(s[1..], letter, matched, c);
      var rest := Words(s[1..], letter);
      if !matched(s[0]) {
        if |s| > 1 && !matched(s[1]) {
          SpeltLonger(s[0], rest, c);
        } else {
          SpeltFirst([s[0]], rest, c);
        }
      }
    }
  }

  lemma TrimBefore(t: string, c: char)
    ensures TrimChar([c] + t, c) == TrimChar(t, c)
  {
    assert ([c] + t)[1..] == t;
  }

  lemma TrimAfter(t: string, c: char)
    requires t != "" && t[0] != c && t[|t| - 1] != c
    ensures TrimChar(t + [c], c) == t
  {
    var s := t + [c];
    assert s[0] == t[0] && s[|s| - 1] == c && s[..|s| - 1] == t;
    assert TrimChar(s, c) == TrimChar(s[..|s| - 1], c);
  }

  lemma TrimmedAround(before: string, h: string, after: string, c: char)
    requires (before == "" || before == [c]) && (after == "" || after == [c]) && (h == "" ==> after == "")
    requires h != "" ==> h[0] != c && h[|h| - 1] != c
    ensures TrimChar(before + h + after, c) == h
  {
    hide TrimChar;
    TrimBefore(h + after, c);
    assert before + h + after == before + (h + after) && "" + (h + after) == h + after;
    if after == [c] {
      TrimAfter(h, c);
    } else {
      assert h + "" == h;
      TrimEdges(h, c);
    }
  }

  lemma TrimEdges(h: string, c: char)
    requires h != "" ==> h[0] != c && h[|h| - 1] != c
    ensures TrimChar(h, c) == h
  {
  }

  /** Runs replaced and the ends trimmed: the words with one separator between each two. */
  lemma CleanedIsSpelt(s: string, letter: Speller, matched: CharClass, sub: char)
    requires Shows(s, letter, matched) && matched(sub)
    ensures TrimChar(ReplaceRuns(s, matched, sub), sub) == Spelt(Words(s, letter), sub)
  {
    var after := RunsAreWords(s, letter, matched, sub);
    WordsAreSpelt(s, letter, matched, sub);
    TrimmedAround(Before(s, matched, sub), Spelt(Words(s, letter), sub), after, sub);
  }

  // ---------------------------------------------------------------- IDs and keys

  lemma SpacesShowNothing()
    ensures forall c :: IsSpace(c) ==> Letter(c).None?
    ensures forall c :: Letter(LowerChar(c)) == Letter(c)
  {
  }

  lemma LowerShows(value: string)
    ensures Shows(Lower(TrimSpace(value)), Letter, NOT_ID)
  {
    hide TrimSpace;
    var s := Lower(TrimSpace(value));
    forall i | 0 <= i < |s| ensures if NOT_ID(s[i]) then Letter(s[i]).None? else Letter(s[i]) == Some(s[i]) {
      LowerIsNotUpper(TrimSpace(value)[i]);
    }
  }

  lemma LowerIsNotUpper(c: char)
    ensures var l := LowerChar(c); if Alphanumeric(l) then Letter(l) == Some(l) else Letter(l).None?
  {
  }

  lemma WordsOfCleaned(value: string)
    ensures Words(Lower(TrimSpace(value)), Letter) == Words(value, Letter)
  {
    hide TrimSpace, Lower, Letter, IsSpace, LowerChar;
    SpacesShowNothing();
    WordsOfTrimmed(value, Letter);
    WordsOfLower(TrimSpace(value), Letter);
  }

  /** An ID is the words of the text it was made from, with one dash between each two. */
  lemma IDSpells(value: string)
    ensures NormalizeID(value) == Spelt(Words(value, Letter), '-')
  {
    hide TrimSpace, Lower, Words, TrimChar;
    var s := Lower(TrimSpace(value));
    WordsOfCleaned(value);
    LowerShows(value);
    RunsReplaced(s, NOT_ID, '-');
    RunsKept(ReplaceRuns(s, NOT_ID, '-'), DASH, '-');
    CleanedIsSpelt(s, Letter, NOT_ID, '-');
  }

  lemma {:induction false} RunsKeepWords(s: string, letter: Speller, matched: CharClass, sub: char)
    requires letter(sub).None? && forall i :: 0 <= i < |s| && matched(s[i]) ==> letter(s[i]).None?
    ensures Words(ReplaceRuns(s, matched, sub), letter) == Words(s, letter)
    ensures var r := ReplaceRuns(s, matched, sub);
            s != "" ==> r != "" && (letter(r[0]).Some? <==> letter(s[0]).Some?)
  {
    if s != "" {
      RunsKeepWords(s[1..], letter, matched, sub);
      var rest := ReplaceRuns(s[1..], matched, sub);
      assert ([s[0]] + rest)[1..] == rest && ([sub] + rest)[1..] == rest;
    }
  }

  lemma OnceShows(value: string)
    ensures var s := Lower(TrimSpace(value));
            && Shows(ReplaceRuns(s, NOT_KEY, '_'), Letter, UNDERSCORE)
            && Words(ReplaceRuns(s, NOT_KEY, '_'), Letter) == Words(s, Letter)
  {
    hide TrimSpace, Lower, Words;
    var s := Lower(TrimSpace(value));
    var once := ReplaceRuns(s, NOT_KEY, '_');
    RunsReplaced(s, NOT_ID, '-');
    KeyRunCharacters(s);
    LowerShows(value);
    forall i | 0 <= i < |s| && NOT_KEY(s[i]) ensures Letter(s[i]).None? {
      assert NOT_ID(s[i]);
    }
    RunsKeepWords(s, Letter, NOT_KEY, '_');
  }

  lemma {:induction false} KeyRunCharacters(s: string)
    ensures forall i :: 0 <= i < |ReplaceRuns(s, NOT_KEY, '_')| ==>
      var c := ReplaceRuns(s, NOT_KEY, '_')[i]; c == '_' || Alphanumeric(c)
  {
    if s != "" { KeyRunCharacters(s[1..]); }
  }

  /** A setting key likewise, with underscores. */
  lemma KeySpells(value: string)
    ensures NormalizeKey(value) == Spelt(Words(value, Letter), '_')
  {
    hide TrimSpace, Lower, Words, TrimChar;
    var once := ReplaceRuns(Lower(TrimSpace(value)), NOT_KEY, '_');
    WordsOfCleaned(value);
    OnceShows(value);
    CleanedIsSpelt(once, Letter, UNDERSCORE, '_');
  }
}
