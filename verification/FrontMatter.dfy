/** The front matter of a post file: how fields are quoted when they are written and read when they are loaded.
    Writing escapes quotes and backslashes; reading strips the outer quotes and unescapes nothing. */
module FrontMatter {
  import opened Text
  import opened Substitution

  // ---------------------------------------------------------------- one value

  /** `strconvQuote`. */
  function Quote(value: string): string {
    "\"" + ReplaceAll(ReplaceAll(value, "\\", "\\\\"), "\"", "\\\"") + "\""
  }

  /** What `splitFrontMatter` and `get` make of the text after the colon. */
  function Unquote(text: string): string { TrimSpace(TrimChar(TrimSpace(text), '"')) }

  predicate Plain(value: string) { Trimmed(value) && '"' !in value && '\\' !in value }

  function Count(s: string, c: char): nat {
    if s == "" then 0 else (if s[0] == c then 1 else 0) + Count(s[1..], c)
  }

  lemma {:induction false} CountAppend(a: string, b: string, c: char)
    ensures Count(a + b, c) == Count(a, c) + Count(b, c)
  {
    if a == "" {
      assert a + b == b;
    } else {
      assert (a + b)[1..] == a[1..] + b;
      CountAppend(a[1..], b, c);
    }
  }

  lemma {:induction false} CountNone(s: string, c: char)
    ensures Count(s, c) == 0 <==> c !in s
  {
    if s != "" {
      CountNone(s[1..], c);
      assert s == [s[0]] + s[1..];
    }
  }

  lemma MulStep(n: nat, k: int)
    ensures (n + 1) * k == n * k + k
  {
  }

  lemma CountFirst(x: char, rest: string, c: char)
    ensures Count([x] + rest, c) == (if x == c then 1 else 0) + Count(rest, c)
  {
    assert ([x] + rest)[1..] == rest;
  }

  /** Replacing a character by a text changes the number of `c` by what the text has more of it. */
  lemma {:induction false} CountReplaced(s: string, pat: char, sub: string, c: char)
    ensures Count(ReplaceAll(s, [pat], sub), c)
         == Count(s, c) + Count(s, pat) * (Count(sub, c) - (if c == pat then 1 else 0))
  {
    var more := Count(sub, c) - (if c == pat then 1 else 0);
    if s != "" {
      var rest := ReplaceAll(s[1..], [pat], sub);
      CountReplaced(s[1..], pat, sub, c);
      if s[0] == pat {
        assert [pat] <= s;
        CountAppend(sub, rest, c);
        MulStep(Count(s[1..], pat), more);
      } else {
        assert !([pat] <= s);
        CountFirst(s[0], rest, c);
      }
    }
  }

  lemma EscapeCounts()
    ensures Count("\\\\", '\\') == 2 && Count("\\\\", '"') == 0 && Count("\\\"", '\\') == 1 && Count("\"", '\\') == 0
  {
  }

  /** Every backslash is doubled and every quote brings one. */
  lemma QuoteBackslashes(value: string)
    ensures Count(Quote(value), '\\') == 2 * Count(value, '\\') + Count(value, '"')
  {
    hide ReplaceAll, Count;
    EscapeCounts();
    var once := ReplaceAll(value, "\\", "\\\\");
    CountReplaced(value, '\\', "\\\\", '\\');
    CountReplaced(value, '\\', "\\\\", '"');
    CountReplaced(once, '"', "\\\"", '\\');
    var twice := ReplaceAll(once, "\"", "\\\"");
    CountAppend("\"", twice, '\\');
    CountAppend("\"" + twice, "\"", '\\');
  }

  lemma {:induction false} TrimSpaceCount(s: string, c: char)
    requires !IsSpace(c)
    ensures Count(TrimSpace(s), c) == Count(s, c)
    decreases |s|
  {
    hide IsSpace;
    if s != "" {
      if IsSpace(s[0]) {
        TrimSpaceCount(s[1..], c);
      } else if IsSpace(s[|s| - 1]) {
        TrimSpaceCount(s[..|s| - 1], c);
        DropLast(s, c);
      }
    }
  }

  lemma DropLast(s: string, c: char)
    requires s != "" && s[|s| - 1] != c
    ensures Count(s[..|s| - 1], c) == Count(s, c)
  {
    CountAppend(s[..|s| - 1], [s[|s| - 1]], c);
    assert s == s[..|s| - 1] + [s[|s| - 1]];
    assert Count([s[|s| - 1]][1..], c) == 0;
  }

  lemma {:induction false} TrimCharCount(s: string, d: char, c: char)
    requires c != d
    ensures Count(TrimChar(s, d), c) == Count(s, c)
    decreases |s|
  {
    if s != "" {
      if s[0] == d {
        TrimCharCount(s[1..], d, c);
      } else if s[|s| - 1] == d {
        TrimCharCount(s[..|s| - 1], d, c);
        DropLast(s, c);
      }
    }
  }

  lemma QuotePlain(value: string)
    requires '"' !in value && '\\' !in value
    ensures Quote(value) == "\"" + value + "\""
  {
    FreeOfChar(value, '\\');
    FreeOfChar(value, '"');
    ReplaceNothing(value, "\\", "\\\\");
    ReplaceNothing(value, "\"", "\\\"");
  }

  lemma TrimQuotes(value: string)
    requires '"' !in value
    ensures TrimChar("\"" + value + "\"", '"') == value
  {
    var s := "\"" + value + "\"";
    assert s[1..] == value + "\"";
    assert (value + "\"")[..|value|] == value;
    if value == "" {
      assert TrimChar("\"", '"') == TrimChar("", '"');
    } else {
      assert (value + "\"")[0] == value[0] && value[0] in value;
      assert value[|value| - 1] in value;
    }
  }

  /** A value survives being written and read exactly when it is trimmed and needs no escape. */
  lemma ValueSurvivesIffPlain(value: string)
    ensures Unquote(Quote(value)) == value <==> Plain(value)
  {
    hide ReplaceAll, TrimSpace, TrimChar, Count;
    var quoted := Quote(value);
    assert Trimmed(quoted) by { QuotedTrimmed(value); }
    assert TrimSpace(quoted) == quoted;
    if Plain(value) {
      QuotePlain(value);
      TrimQuotes(value);
    } else if Unquote(quoted) == value {
      QuoteBackslashes(value);
      assert !IsSpace('\\');
      TrimCharCount(quoted, '"', '\\');
      TrimSpaceCount(TrimChar(quoted, '"'), '\\');
      CountNone(value, '\\');
      CountNone(value, '"');
    }
  }

  lemma QuotedTrimmed(value: string)
    ensures Trimmed(Quote(value)) && Quote(value) != ""
  {
    hide ReplaceAll;
  }

  // ---------------------------------------------------------------- the tags

  function TagText(tag: string, first: bool): string { (if first then "" else " ") + Quote(TrimSpace(tag)) }

  function TagTexts(tags: seq<string>): (texts: seq<string>)
    ensures |texts| == |tags| && forall i :: 0 <= i < |tags| ==> texts[i] == TagText(tags[i], i == 0)
  {
    seq(|tags|, i requires 0 <= i < |tags| => TagText(tags[i], i == 0))
  }

  function TagList(tags: seq<string>): string {
    "[" + (if tags == [] then "" else JoinOn(TagTexts(tags), ',')) + "]"
  }

  function ListItem(part: string): seq<string> {
    var item := TrimChar(TrimSpace(part), '"');
    if item == "" then [] else [item]
  }

  function ListItems(parts: seq<string>): seq<string> {
    if parts == [] then [] else ListItems(parts[..|parts| - 1]) + ListItem(parts[|parts| - 1])
  }

  function WithoutPrefix(s: string, prefix: string): string {
    if prefix <= s then s[|prefix|..] else s
  }

  function WithoutSuffix(s: string, suffix: string): string {
    if HasSuffix(s, suffix) then s[..|s| - |suffix|] else s
  }

  function ListBody(value: string): string { WithoutSuffix(WithoutPrefix(TrimSpace(value), "["), "]") }

  /** `parseList`. */
  function ParseList(value: string): seq<string> {
    if ListBody(value) == "" then [] else ListItems(SplitOn(ListBody(value), ','))
  }

  method Unbracketed(value: string) returns (v: string)
    ensures v == ListBody(value)
  {
    hide TrimSpace;
    v := TrimSpace(value);
    if "[" <= v {
      v := v[1..];
    }
    if HasSuffix(v, "]") {
      v := v[..|v| - 1];
    }
  }

  method ParseTags(value: string) returns (items: seq<string>)
    ensures items == ParseList(value)
  {
    hide ListBody, TrimSpace, SplitOn;
    var v := Unbracketed(value);
    if v == "" {
      return [];
    }
    var parts := SplitOn(v, ',');
    items := [];
    for i := 0 to |parts|
      invariant items == ListItems(parts[..i])
    {
      assert parts[..i + 1][..i] == parts[..i];
      var item := TrimChar(TrimSpace(parts[i]), '"');
      if item != "" {
        items := items + [item];
      }
    }
    assert parts[..|parts|] == parts;
  }

  /** The part is this tag, perhaps between quotes and white space. */
  ghost predicate Spells(part: string, tag: string) {
    exists left, quotes, quotes', right ::
      && AllSpace(left)
      && AllQuotes(quotes)
      && AllQuotes(quotes')
      && AllSpace(right)
      && part == left + (quotes + tag + quotes') + right
  }

  predicate AllQuotes(s: string) { forall i :: 0 <= i < |s| ==> s[i] == '"' }

  lemma {:induction false} QuotesTrimmed(quotes: string, tag: string, quotes': string)
    requires AllQuotes(quotes) && AllQuotes(quotes') && tag != "" && tag[0] != '"' && tag[|tag| - 1] != '"'
    ensures TrimChar(quotes + tag + quotes', '"') == tag
    decreases |quotes| + |quotes'|
  {
    var s := quotes + tag + quotes';
    if quotes != "" {
      assert s[1..] == quotes[1..] + tag + quotes';
      QuotesTrimmed(quotes[1..], tag, quotes');
    } else if quotes' != "" {
      assert s[0] == tag[0] && s[..|s| - 1] == quotes + tag + quotes'[..|quotes'| - 1];
      QuotesTrimmed(quotes, tag, quotes'[..|quotes'| - 1]);
    } else {
      assert s == tag;
    }
  }

  predicate BareValue(tag: string) { tag != "" && Trimmed(tag) && tag[0] != '"' && tag[|tag| - 1] != '"' }

  lemma SpelledReads(part: string, tag: string)
    requires Spells(part, tag) && BareValue(tag)
    ensures TrimChar(TrimSpace(part), '"') == tag
  {
    hide AllSpace;
    var left, quotes, quotes', right :| AllSpace(left) && AllQuotes(quotes) && AllQuotes(quotes') && AllSpace(right)
      && part == left + (quotes + tag + quotes') + right;
    assert !IsSpace('"');
    var core := quotes + tag + quotes';
    assert Trimmed(core) by {
      assert core[0] == if quotes == "" then tag[0] else quotes[0];
      assert core[|core| - 1] == if quotes' == "" then tag[|tag| - 1] else quotes'[|quotes'| - 1];
    }
    TrimPadded(left, core, right);
    QuotesTrimmed(quotes, tag, quotes');
  }

  /** A value is read however it is spaced and quoted. */
  lemma ValueReads(text: string, value: string)
    requires Spells(text, value) && BareValue(value)
    ensures Unquote(text) == value
  {
    hide TrimChar, AllSpace;
    SpelledReads(text, value);
  }

  lemma ItemReads(part: string, tag: string)
    requires Spells(part, tag) && BareValue(tag)
    ensures ListItem(part) == [tag]
  {
    hide Spells, TrimChar, TrimSpace;
    SpelledReads(part, tag);
  }

  lemma {:induction false} ItemsRead(parts: seq<string>, tags: seq<string>)
    requires |parts| == |tags| && forall i :: 0 <= i < |parts| ==> Spells(parts[i], tags[i]) && BareValue(tags[i])
    ensures ListItems(parts) == tags
  {
    hide Spells, BareValue, ListItem;
    if parts != [] {
      var last := |parts| - 1;
      ItemsRead(parts[..last], tags[..last]);
      ItemReads(parts[last], tags[last]);
      assert tags == tags[..last] + [tags[last]];
    }
  }

  /** A list of tags is read however it is spaced and quoted. */
  lemma ListReads(left: string, parts: seq<string>, tags: seq<string>, right: string)
    requires AllSpace(left) && AllSpace(right) && parts != [] && JoinOn(parts, ',') != ""
    requires |parts| == |tags|
    requires forall i :: 0 <= i < |parts| ==> ',' !in parts[i] && Spells(parts[i], tags[i]) && BareValue(tags[i])
    ensures ParseList(left + ("[" + JoinOn(parts, ',') + "]") + right) == tags
  {
    hide *;
    SpacedBody(left, JoinOn(parts, ','), right);
    SplitJoined(parts, ',');
    ItemsRead(parts, tags);
    ParsedBody(left + ("[" + JoinOn(parts, ',') + "]") + right);
  }

  lemma ParsedBody(value: string)
    ensures ListBody(value) != "" ==> ParseList(value) == ListItems(SplitOn(ListBody(value), ','))
  {
    hide ListBody, SplitOn, ListItems;
  }

  lemma SpacedBody(left: string, inner: string, right: string)
    requires AllSpace(left) && AllSpace(right)
    ensures ListBody(left + ("[" + inner + "]") + right) == inner
  {
    hide AllSpace;
    var core := "[" + inner + "]";
    assert Trimmed(core);
    TrimPadded(left, core, right);
    ListBodyOf(inner);
  }

  predicate PlainTag(tag: string) { Plain(tag) && tag != "" && ',' !in tag }

  predicate PlainTags(tags: seq<string>) { forall i :: 0 <= i < |tags| ==> PlainTag(tags[i]) }

  lemma ListBodyOf(inner: string)
    ensures ListBody("[" + inner + "]") == inner
  {
    var s := "[" + inner + "]";
    assert Trimmed(s);
    assert s[1..] == inner + "]";
    assert HasSuffix(inner + "]", "]");
    assert (inner + "]")[..|inner|] == inner;
  }

  lemma {:induction false} JoinEmptyOnlyIfEmpty(parts: seq<string>, c: char)
    requires parts != [] && parts[0] != ""
    ensures JoinOn(parts, c) != ""
  {
  }

  /** The list that is read back is made of the pieces between commas. */
  lemma ParsedTags(tags: seq<string>)
    requires tags != []
    ensures ParseList(TagList(tags)) == ListItems(SplitOn(JoinOn(TagTexts(tags), ','), ','))
  {
    hide ListBody, SplitOn, Quote;
    ListBodyOf(JoinOn(TagTexts(tags), ','));
    QuotedTrimmed(TrimSpace(tags[0]));
    JoinEmptyOnlyIfEmpty(TagTexts(tags), ',');
  }

  function CountAll(items: seq<string>, c: char): nat {
    if items == [] then 0 else CountAll(items[..|items| - 1], c) + Count(items[|items| - 1], c)
  }

  lemma CountOneMore(items: seq<string>, item: seq<string>, c: char)
    requires |item| <= 1
    ensures CountAll(items + item, c) == CountAll(items, c) + (if item == [] then 0 else Count(item[0], c))
  {
    if item == [] {
      assert items + item == items;
    } else {
      assert (items + item)[..|items|] == items;
    }
  }

  /** Reading drops only quotes and white space, so all backslashes are still there. */
  lemma {:induction false} ItemsKeepBackslashes(parts: seq<string>)
    ensures CountAll(ListItems(parts), '\\') == CountAll(parts, '\\')
  {
    hide Count, TrimChar, TrimSpace;
    if parts != [] {
      var last := parts[|parts| - 1];
      ItemsKeepBackslashes(parts[..|parts| - 1]);
      assert !IsSpace('\\');
      TrimSpaceCount(last, '\\');
      TrimCharCount(TrimSpace(last), '"', '\\');
      CountNone("", '\\');
      CountOneMore(ListItems(parts[..|parts| - 1]), ListItem(last), '\\');
    }
  }

  lemma {:induction false} CountJoined(parts: seq<string>, sep: char, c: char)
    requires parts != [] && c != sep
    ensures Count(JoinOn(parts, sep), c) == CountAll(parts, c)
  {
    hide Count;
    CountFront(parts, c);
    if |parts| > 1 {
      CountJoined(parts[1..], sep, c);
      CountAppend(parts[0] + [sep], JoinOn(parts[1..], sep), c);
      CountAppend(parts[0], [sep], c);
      CountNone([sep], c);
    }
  }

  lemma {:induction false} CountFront(items: seq<string>, c: char)
    requires items != []
    ensures CountAll(items, c) == Count(items[0], c) + CountAll(items[1..], c)
  {
    if |items| > 1 {
      var init := items[..|items| - 1];
      CountFront(init, c);
      assert items[1..][..|items| - 2] == init[1..];
    }
  }

  lemma {:induction false} CountSplit(s: string, sep: char, c: char)
    requires c != sep
    ensures CountAll(SplitOn(s, sep), c) == Count(s, c)
  {
    var parts := SplitOn(s, sep);
    if s == "" {
      assert parts[..0] == [];
    } else {
      var rest := SplitOn(s[1..], sep);
      CountSplit(s[1..], sep, c);
      CountFront(parts, c);
      CountFront(rest, c);
      if s[0] == sep {
        assert parts[1..] == rest;
      } else {
        assert parts[1..] == rest[1..];
        assert parts[0] == [s[0]] + rest[0];
        CountAppend([s[0]], rest[0], c);
        assert Count([s[0]], c) == (if s[0] == c then 1 else 0) + Count([s[0]][1..], c);
      }
    }
  }

  function TrimmedTags(tags: seq<string>): (r: seq<string>)
    ensures |r| == |tags| && forall i :: 0 <= i < |r| ==> r[i] == TrimSpace(tags[i])
  {
    seq(|tags|, i requires 0 <= i < |tags| => TrimSpace(tags[i]))
  }

  lemma TagTextCount(tag: string, first: bool)
    ensures Count(TagText(tag, first), '\\') == 2 * Count(tag, '\\') + Count(tag, '"')
  {
    hide Count, Quote, TrimSpace;
    var space := if first then "" else " ";
    QuoteBackslashes(TrimSpace(tag));
    assert !IsSpace('\\') && !IsSpace('"');
    TrimSpaceCount(tag, '\\');
    TrimSpaceCount(tag, '"');
    CountNone(space, '\\');
    CountAppend(space, Quote(TrimSpace(tag)), '\\');
  }

  lemma {:induction false} TagTextBackslashes(tags: seq<string>)
    ensures CountAll(TagTexts(tags), '\\') == 2 * CountAll(tags, '\\') + CountAll(tags, '"')
  {
    hide Count, TagText;
    if tags != [] {
      var last := |tags| - 1;
      TagTextBackslashes(tags[..last]);
      assert TagTexts(tags)[..last] == TagTexts(tags[..last]);
      TagTextCount(tags[last], last == 0);
    }
  }

  lemma {:induction false} CountAllNone(items: seq<string>, c: char)
    ensures CountAll(items, c) == 0 <==> forall i :: 0 <= i < |items| ==> c !in items[i]
  {
    hide Count;
    if items != [] {
      CountAllNone(items[..|items| - 1], c);
      CountNone(items[|items| - 1], c);
    }
  }

  lemma {:induction false} ItemsWithoutComma(parts: seq<string>)
    requires forall i :: 0 <= i < |parts| ==> ',' !in parts[i]
    ensures forall i :: 0 <= i < |ListItems(parts)| ==> ',' !in ListItems(parts)[i]
  {
    if parts != [] {
      var last := parts[|parts| - 1];
      ItemsWithoutComma(parts[..|parts| - 1]);
      TrimSpacePart(last);
    }
  }

  lemma {:induction false} TrimSpacePart(s: string)
    ensures forall i :: 0 <= i < |TrimSpace(s)| ==> TrimSpace(s)[i] in s
    decreases |s|
  {
    hide IsSpace;
    if s != "" {
      if IsSpace(s[0]) { TrimSpacePart(s[1..]); }
      else if IsSpace(s[|s| - 1]) { TrimSpacePart(s[..|s| - 1]); }
    }
  }

  function NonEmpty(items: seq<string>): seq<string> {
    if items == [] then []
    else NonEmpty(items[..|items| - 1]) + (if items[|items| - 1] == "" then [] else [items[|items| - 1]])
  }

  predicate Unescaped(tags: seq<string>) {
    forall i :: 0 <= i < |tags| ==> '"' !in tags[i] && '\\' !in tags[i] && ',' !in tags[i]
  }

  lemma TrimSpaceKeepsOut(s: string, c: char)
    requires c !in s
    ensures c !in TrimSpace(s)
  {
    TrimSpacePart(s);
  }

  lemma TagTextPlain(tag: string, first: bool)
    requires '"' !in tag && '\\' !in tag
    ensures TagText(tag, first) == (if first then "" else " ") + ("\"" + TrimSpace(tag) + "\"")
    ensures ',' !in tag ==> ',' !in TagText(tag, first)
  {
    hide TrimSpace, ReplaceAll, Quote;
    TrimSpaceKeepsOut(tag, '"');
    TrimSpaceKeepsOut(tag, '\\');
    if ',' !in tag { TrimSpaceKeepsOut(tag, ','); }
    QuotePlain(TrimSpace(tag));
  }

  lemma TagItem(tag: string, first: bool)
    requires '"' !in tag && '\\' !in tag
    ensures ListItem(TagText(tag, first)) == if TrimSpace(tag) == "" then [] else [TrimSpace(tag)]
  {
    hide TrimSpace, TrimChar, TagText;
    TagTextPlain(tag, first);
    TrimSpaceKeepsOut(tag, '"');
    var space, quoted := if first then "" else " ", "\"" + TrimSpace(tag) + "\"";
    TrimPadded(space, quoted, "");
    assert space + quoted + "" == space + quoted;
    TrimQuotes(TrimSpace(tag));
  }

  lemma PlainTextsHaveNoComma(tags: seq<string>)
    requires Unescaped(tags)
    ensures forall i :: 0 <= i < |tags| ==> ',' !in TagTexts(tags)[i]
  {
    hide TagText;
    forall i | 0 <= i < |tags| ensures ',' !in TagTexts(tags)[i] {
      TagTextPlain(tags[i], i == 0);
    }
  }

  lemma TextsLast(tags: seq<string>)
    ensures var last := |tags| - 1;
            if tags == [] then TagTexts(tags) == [] && TrimmedTags(tags) == []
            else
              && TagTexts(tags) == TagTexts(tags[..last]) + [TagText(tags[last], last == 0)]
              && TrimmedTags(tags) == TrimmedTags(tags[..last]) + [TrimSpace(tags[last])]
  {
  }

  lemma {:induction false} PlainTexts(tags: seq<string>)
    requires Unescaped(tags)
    ensures ListItems(TagTexts(tags)) == NonEmpty(TrimmedTags(tags))
  {
    hide ListItem, TagText, TrimSpace, TagTexts, TrimmedTags;
    TextsLast(tags);
    if tags != [] {
      var last := |tags| - 1;
      PlainTexts(tags[..last]);
      TagItem(tags[last], last == 0);
    }
  }

  /** What is read back never needed an escape. */
  lemma ReadTagsAreUnescaped(tags: seq<string>)
    requires tags != [] && ParseList(TagList(tags)) == tags
    ensures Unescaped(tags)
  {
    hide ListItems, SplitOn, Quote, TrimSpace, JoinOn, ParseList, TagList;
    ParsedTags(tags);
    var parts := SplitOn(JoinOn(TagTexts(tags), ','), ',');
    ItemsWithoutComma(parts);
    ItemsKeepBackslashes(parts);
    CountSplit(JoinOn(TagTexts(tags), ','), ',', '\\');
    CountJoined(TagTexts(tags), ',', '\\');
    TagTextBackslashes(tags);
    CountAllNone(tags, '\\');
    CountAllNone(tags, '"');
  }

  lemma UnescapedTags(tags: seq<string>)
    requires tags != [] && Unescaped(tags)
    ensures ParseList(TagList(tags)) == NonEmpty(TrimmedTags(tags))
  {
    hide ListItems, SplitOn, Quote, TrimSpace, JoinOn, ParseList, TagList;
    ParsedTags(tags);
    PlainTexts(tags);
    PlainTextsHaveNoComma(tags);
    SplitJoined(TagTexts(tags), ',');
  }

  lemma {:induction false} NonEmptyLength(items: seq<string>)
    ensures |NonEmpty(items)| <= |items|
    ensures |NonEmpty(items)| == |items| <==> forall i :: 0 <= i < |items| ==> items[i] != ""
    ensures |NonEmpty(items)| == |items| ==> NonEmpty(items) == items
  {
    if items != [] {
      NonEmptyLength(items[..|items| - 1]);
      assert items == items[..|items| - 1] + [items[|items| - 1]];
    }
  }

  /** Tags survive being written and read exactly when each is nonempty, trimmed, and free of commas and of
      anything that needs an escape. */
  lemma TagsSurviveIffPlain(tags: seq<string>)
    ensures ParseList(TagList(tags)) == tags <==> PlainTags(tags)
  {
    hide ParseList, TagList, NonEmpty, TrimSpace;
    if tags == [] {
      NoTags();
    } else {
      if ParseList(TagList(tags)) == tags { ReadTagsAreUnescaped(tags); }
      if Unescaped(tags) {
        UnescapedTags(tags);
        NonEmptyLength(TrimmedTags(tags));
        TrimmedSame(tags);
      }
    }
  }

  lemma NoTags()
    ensures ParseList(TagList([])) == []
  {
    ListBodyOf("");
    assert "[" + "" + "]" == "[]";
  }

  lemma TrimmedSame(tags: seq<string>)
    ensures TrimmedTags(tags) == tags <==> forall i :: 0 <= i < |tags| ==> Trimmed(tags[i])
  {
    forall i | 0 <= i < |tags| ensures TrimSpace(tags[i]) == tags[i] <==> Trimmed(tags[i]) {
    }
  }
}
