/** How display equations are labelled and tagged in a source, against the pass that numbers them. */
module EquationSources {
  import opened Text
  import opened Patterns
  import opened Commands
  import opened Equations

  // ---------------------------------------------------------------- tags

  /** A tag of either form. */
  ghost predicate TagStands(s: string, i: nat, content: string) {
    Stands(s, i, TAG, content) || Stands(s, i, STARRED_TAG, content)
  }

  ghost predicate FirstTagAt(s: string, i: nat, content: string, k: nat) {
    && i <= k < |s|
    && TagStands(s, k, content)
    && forall j, c :: i <= j < k ==> !TagStands(s, j, c)
  }

  ghost predicate TaggedFirst(s: string, content: string) {
    exists k: nat :: FirstTagAt(s, 0, content, k)
  }

  lemma {:induction false} FirstTagIs(s: string, i: nat) returns (k: nat)
    ensures match FirstTag(s, i)
      case Some(c) => FirstTagAt(s, i, c, k)
      case None => forall k: nat, c :: i <= k ==> !TagStands(s, k, c)
    decreases |s| - i
  {
    hide Command.MatchAt, Stands;
    k := i;
    if i < |s| {
      MatchIsWritten(TAG, s, i);
      MatchIsWritten(STARRED_TAG, s, i);
      if TAG.MatchAt(s, i).None? && STARRED_TAG.MatchAt(s, i).None? {
        k := FirstTagIs(s, i + 1);
      }
    } else {
      NothingBeyond(TAG, s, i);
      NothingBeyond(STARRED_TAG, s, i);
    }
  }

  lemma OneTag(s: string, i: nat, c: string, c': string)
    requires TagStands(s, i, c) && TagStands(s, i, c')
    ensures c == c'
  {
    hide Stands;
    if Stands(s, i, TAG, c) { FifthOf(s, i, TAG, c); } else { FifthOf(s, i, STARRED_TAG, c); }
    if Stands(s, i, TAG, c') { FifthOf(s, i, TAG, c'); } else { FifthOf(s, i, STARRED_TAG, c'); }
    OneContentOfEither(s, i, c, c');
  }

  lemma FifthOf(s: string, i: nat, command: Command, c: string)
    requires Stands(s, i, command, c) && |command.head| > 4
    ensures i + 4 < |s| && s[i + 4] == command.head[4]
  {
    assert s[i..i + |command.head|][4] == s[i + 4];
  }

  lemma OneContentOfEither(s: string, i: nat, c: string, c': string)
    ensures Stands(s, i, TAG, c) && Stands(s, i, TAG, c') ==> c == c'
    ensures Stands(s, i, STARRED_TAG, c) && Stands(s, i, STARRED_TAG, c') ==> c == c'
  {
    hide Stands;
    if Stands(s, i, TAG, c) && Stands(s, i, TAG, c') { OneContent(TAG, s, i, c, c'); }
    if Stands(s, i, STARRED_TAG, c) && Stands(s, i, STARRED_TAG, c') { OneContent(STARRED_TAG, s, i, c, c'); }
  }

  lemma FirstTagIff(s: string, content: string)
    ensures FirstTag(s, 0) == Some(content) <==> TaggedFirst(s, content)
    ensures FirstTag(s, 0).None? <==> forall k: nat, c :: !TagStands(s, k, c)
  {
    hide FirstTag, TagStands;
    var k' := FirstTagIs(s, 0);
    if TaggedFirst(s, content) {
      var k: nat :| FirstTagAt(s, 0, content, k);
      assert k == k';
      OneTag(s, k, FirstTag(s, 0).value, content);
    }
    if FirstTag(s, 0).Some? { assert TagStands(s, k', FirstTag(s, 0).value); }
  }

  // ---------------------------------------------------------------- labels

  /** What is left when the commands are taken out. */
  function Dropped(pieces: seq<Piece>): string {
    if pieces == [] then "" else (match pieces[0] case Lit(c) => [c] case Call(_) => "") + Dropped(pieces[1..])
  }

  lemma {:induction false} RewrittenToNothing(pieces: seq<Piece>, command: Command, by_: (string, string) -> string)
    requires forall content, raw :: by_(content, raw) == ""
    ensures Rewritten(pieces, command, by_) == Dropped(pieces)
  {
    if pieces != [] { RewrittenToNothing(pieces[1..], command, by_); }
  }

  lemma {:induction false} NothingDropped(s: string, i: nat, command: Command, pieces: seq<Piece>)
    requires i <= |s| && Reads(s, i, command, pieces) && forall k: nat, c :: i <= k ==> !Stands(s, k, command, c)
    ensures Dropped(pieces) == s[i..]
    decreases |pieces|
  {
    hide Stands;
    if pieces != [] {
      assert pieces[0].Lit?;
      NothingDropped(s, i + 1, command, pieces[1..]);
      assert s[i..] == [s[i]] + s[i + 1..];
    }
  }

  /** The body without its labels. */
  lemma BareIsUnlabelled(body: string) returns (pieces: seq<Piece>)
    ensures Reads(body, 0, LABEL, pieces) && Bare(body) == Dropped(pieces)
  {
    hide Command.First, Command.ReplaceFrom, Stands, Reads;
    var none: (string, string) -> string := (_, _) => "";
    pieces := ReplacesWhatIsRead(LABEL, body, 0, none);
    RewrittenToNothing(pieces, LABEL, none);
    var k := FirstIsWritten(LABEL, body, 0);
    if LABEL.First(body, 0).None? {
      NothingDropped(body, 0, LABEL, pieces);
      assert body[0..] == body;
    } else {
      BareReplaces(body, none);
    }
  }

  lemma BareReplaces(body: string, none: (string, string) -> string)
    requires LABEL.First(body, 0).Some? && forall content, raw :: none(content, raw) == ""
    ensures Bare(body) == LABEL.ReplaceFrom(body, 0, none)
  {
    hide Command.First;
    SameReplacement(body, 0, (_, _) => "", none);
  }

  lemma {:induction false} SameReplacement(s: string, i: nat, a: (string, string) -> string, b: (string, string) -> string)
    requires forall content, raw :: a(content, raw) == b(content, raw)
    ensures LABEL.ReplaceFrom(s, i, a) == LABEL.ReplaceFrom(s, i, b)
    decreases |s| - i
  {
    hide Command.MatchAt;
    if i < |s| {
      match LABEL.MatchAt(s, i)
      case Some(m) => SameReplacement(s, m.end, a, b);
      case None => SameReplacement(s, i + 1, a, b);
    }
  }

  // ---------------------------------------------------------------- numbering

  /** The text ends in this one, and only line breaks follow it. */
  ghost predicate KeptOf(text: string, kept: string) {
    && kept <= text
    && (kept != "" ==> kept[|kept| - 1] != '\n')
    && forall i :: |kept| <= i < |text| ==> text[i] == '\n'
  }

  lemma {:induction false} NewlinesTrimmed(text: string)
    ensures KeptOf(text, TrimRightNewlines(text))
  {
    if text != "" && text[|text| - 1] == '\n' { NewlinesTrimmed(text[..|text| - 1]); }
  }

  /** A tagged body keeps its tag and its text; any other ends in a tag with the next number. */
  lemma NumberedBody(body: string, untagged: nat)
    ensures var (equation, text) := NumberBody(body, untagged);
            && (Says(body, LABEL, equation.key) || (equation.key == "" && forall said :: !Says(body, LABEL, said)))
            && (equation.tagged <==> exists k: nat, c :: TagStands(Bare(body), k, c))
            && (equation.tagged ==>
                  text == Bare(body) && exists tag :: TaggedFirst(Bare(body), tag) && TrimSpace(tag) == equation.number)
            && (!equation.tagged ==>
                  && equation.number == Decimal(untagged + 1)
                  && exists kept :: KeptOf(Bare(body), kept)
                       && text == kept + (if AllSpace(kept) then "" else "\n") + "\\tag{" + equation.number + "}")
  {
    hide Command.First, FirstTag, TrimSpace, TagStands, KeptOf, Bare, Says, TrimRightNewlines, AllSpace;
    var (equation, text) := NumberBody(body, untagged);
    var bare := Bare(body);
    forall said { SaysIs(body, LABEL, said); }
    forall c { FirstTagIff(bare, c); }
    if FirstTag(bare, 0).Some? {
      TagIsThere(bare);
    } else {
      var kept := TrimRightNewlines(bare);
      NewlinesTrimmed(bare);
      BlankIs(kept);
      assert text == kept + (if AllSpace(kept) then "" else "\n") + "\\tag{" + equation.number + "}";
    }
  }

  lemma TagIsThere(bare: string)
    requires FirstTag(bare, 0).Some?
    ensures TaggedFirst(bare, FirstTag(bare, 0).value) && exists k: nat, c :: TagStands(bare, k, c)
  {
    hide FirstTag, TagStands;
    var c := FirstTag(bare, 0).value;
    FirstTagIff(bare, c);
    var k: nat :| FirstTagAt(bare, 0, c, k);
    assert TagStands(bare, k, c);
  }

  lemma BlankIs(s: string)
    ensures TrimSpace(s) == "" <==> AllSpace(s)
  {
  }

  // ---------------------------------------------------------------- whether the number shows

  /** A tag is begun and never closed. */
  ghost predicate LeftOpen(text: string, i: nat, command: Command) {
    At(text, i, command.head) && '}' !in text[i + |command.head|..]
  }

  ghost predicate LeavesTagOpen(text: string) {
    exists i: nat :: LeftOpen(text, i, TAG) || LeftOpen(text, i, STARRED_TAG)
  }

  function Gap(kept: string): string { if AllSpace(kept) then "" else "\n" }

  /** Heads of tags hold no white space, so one that begins in the kept text lies in it. */
  lemma HeadInKept(kept: string, tail: string, j: nat, command: Command)
    requires command == TAG || command == STARRED_TAG
    requires j < |kept| + |Gap(kept)| && At(kept + Gap(kept) + tail, j, command.head)
    ensures j + |command.head| <= |kept| && At(kept, j, command.head)
  {
    var s, h := kept + Gap(kept) + tail, command.head;
    assert h[0] == '\\' && forall n :: 0 <= n < |h| ==> h[n] != '\n';
    assert h == s[j..j + |h|] && s[j] == h[0];
    assert !IsSpace('\\');
    assert forall n :: 0 <= n < |kept| ==> s[n] == kept[n];
    if !AllSpace(kept) { assert s[|kept|] == '\n'; }
    assert j < |kept| && Gap(kept) != "";
    assert kept[j..j + |h|] == s[j..j + |h|];
  }

  /** A command that begins in the first part of a text either ends there or takes in all of it. */
  lemma EndsWithin(first: string, rest: string, j: nat, command: Command, c: string)
    requires Stands(first + rest, j, command, c) && j + |command.head| <= |first|
    ensures Stands(first, j, command, c) || ('}' !in first[j + |command.head|..] && |first| <= j + |command.head| + |c|)
  {
    hide Stands;
    if j + |command.head| + |c| < |first| {
      EndsInside(first, rest, j, command, c);
    } else {
      GoesBeyond(first, rest, j, command, c);
    }
  }

  lemma EndsInside(first: string, rest: string, j: nat, command: Command, c: string)
    requires Stands(first + rest, j, command, c) && j + |command.head| + |c| < |first|
    ensures Stands(first, j, command, c)
  {
    var s, from := first + rest, j + |command.head|;
    var end := from + |c|;
    assert first[j..from] == s[j..from] && first[from..end] == s[from..end] && first[end] == s[end];
  }

  lemma GoesBeyond(first: string, rest: string, j: nat, command: Command, c: string)
    requires Stands(first + rest, j, command, c) && j + |command.head| <= |first| <= j + |command.head| + |c|
    ensures '}' !in first[j + |command.head|..]
  {
    var s, from := first + rest, j + |command.head|;
    forall n | from <= n < |first| ensures first[n] != '}' {
      assert first[n] == s[n] == s[from..from + |c|][n - from] == c[n - from];
    }
  }

  lemma OpenTakesAll(first: string, rest: string, j: nat, command: Command)
    requires LeftOpen(first, j, command) && '}' !in rest && |first| + |rest| > j + |command.head|
    ensures Stands(first + rest + "}", j, command, (first + rest)[j + |command.head|..])
  {
    var s, from := first + rest + "}", j + |command.head|;
    var c := (first + rest)[from..];
    assert s[j..from] == first[j..from];
    assert s[from..from + |c|] == c;
    forall n | 0 <= n < |c| ensures c[n] != '}' {
      if from + n < |first| {
        assert c[n] == first[from..][n];
      } else {
        assert c[n] == rest[from + n - |first|];
      }
    }
  }

  /** The number added to an untagged body is the body's tag exactly if no tag is begun and left open in it: such a
      one takes in the number and all that stands before it. */
  lemma NumberShows(kept: string, number: string)
    requires number != "" && '}' !in number && forall k: nat, c :: !TagStands(kept, k, c)
    ensures FirstTag(kept + Gap(kept) + "\\tag{" + number + "}", 0) == Some(number) <==> !LeavesTagOpen(kept)
  {
    hide FirstTag, Stands, LeftOpen, AllSpace;
    var tail := "\\tag{" + number + "}";
    var text := kept + Gap(kept) + tail;
    assert text == kept + Gap(kept) + "\\tag{" + number + "}";
    FirstTagIff(text, number);
    if LeavesTagOpen(kept) {
      NumberIsHidden(kept, number, text);
    } else {
      var p := |kept| + |Gap(kept)|;
      StandsBetween(kept + Gap(kept), TAG, number, "");
      assert kept + Gap(kept) + ("\\tag{" + number + "}") + "" == text;
      forall j, c | 0 <= j < p ensures !TagStands(text, j, c) {
        if TagStands(text, j, c) { OnlyLeftOpen(kept, number, j, c); }
      }
      assert FirstTagAt(text, 0, number, p);
    }
  }

  lemma OnlyLeftOpen(kept: string, number: string, j: nat, c: string)
    requires j < |kept| + |Gap(kept)| && TagStands(kept + Gap(kept) + ("\\tag{" + number + "}"), j, c) && '}' !in number
    requires forall k: nat, c :: !TagStands(kept, k, c)
    ensures LeavesTagOpen(kept) && |c| > |number|
  {
    hide AllSpace;
    var tail := "\\tag{" + number + "}";
    var s := kept + Gap(kept) + tail;
    var command := if Stands(s, j, TAG, c) then TAG else STARRED_TAG;
    HeadInKept(kept, tail, j, command);
    assert s == kept + (Gap(kept) + tail);
    EndsWithin(kept, Gap(kept) + tail, j, command, c);
    assert !Stands(kept, j, command, c) by { assert !TagStands(kept, j, c); }
    assert LeftOpen(kept, j, command);
    var rest := Gap(kept) + "\\tag{" + number;
    GapCloses(kept, number);
    assert s == kept + rest + "}";
    ClosesAtEnd(kept, rest, j, command, c);
  }

  lemma ClosesAtEnd(kept: string, rest: string, j: nat, command: Command, c: string)
    requires Stands(kept + rest + "}", j, command, c) && |kept| <= j + |command.head| + |c|
    requires '}' !in rest
    ensures j + |command.head| + |c| == |kept| + |rest|
  {
    var s := kept + rest + "}";
    assert forall i :: |kept| <= i < |kept| + |rest| ==> s[i] == rest[i - |kept|];
  }

  lemma NumberIsHidden(kept: string, number: string, text: string)
    requires text == kept + Gap(kept) + ("\\tag{" + number + "}") && number != "" && '}' !in number
    requires LeavesTagOpen(kept) && forall k: nat, c :: !TagStands(kept, k, c)
    ensures !TaggedFirst(text, number)
  {
    hide Stands, AllSpace, LeftOpen, Gap;
    var i: nat :| LeftOpen(kept, i, TAG) || LeftOpen(kept, i, STARRED_TAG);
    var command := if LeftOpen(kept, i, TAG) then TAG else STARRED_TAG;
    var rest := Gap(kept) + "\\tag{" + number;
    OpenInside(kept, i, command);
    assert '}' !in rest by { GapCloses(kept, number); }
    OpenTakesAll(kept, rest, i, command);
    assert kept + rest + "}" == text;
    assert TagStands(text, i, (kept + rest)[i + |command.head|..]);
    forall k: nat | FirstTagAt(text, 0, number, k) ensures false {
      assert k <= i < |kept|;
      OnlyLeftOpen(kept, number, k, number);
    }
  }

  lemma OpenInside(kept: string, i: nat, command: Command)
    requires LeftOpen(kept, i, command) && command.head != ""
    ensures i < |kept| && i + |command.head| <= |kept|
  {
  }

  lemma GapCloses(kept: string, number: string)
    requires '}' !in number
    ensures '}' !in Gap(kept) + "\\tag{" + number
  {
  }
}
