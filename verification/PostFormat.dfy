/** Post files as a whole: a draft is serialised, and the file is split and read again. */
module PostFormat {
  import opened Text
  import opened Substitution
  import opened FrontMatter

  datatype Draft = Draft(
    title: string, slug: string, date: string, updated: string, tags: seq<string>, summary: string,
    draft: bool, toc: bool, body: string)

  // ---------------------------------------------------------------- writing

  /** A line of the header: a key and the text written after it. */
  datatype Field = Field(key: string, text: string) {
    function Line(): string { key + ": " + text }
  }

  function Bool(b: bool): string { if b then "true" else "false" }

  function Fields(d: Draft): seq<Field> {
    [Field("title", Quote(d.title)), Field("slug", Quote(d.slug)), Field("date", Quote(d.date))]
    + (if d.updated != "" then [Field("updated", Quote(d.updated))] else [])
    + [Field("tags", TagList(d.tags)), Field("summary", Quote(d.summary)), Field("draft", Bool(d.draft)), Field("toc", Bool(d.toc))]
  }

  function HeaderText(fields: seq<Field>): string {
    if fields == [] then "" else HeaderText(fields[..|fields| - 1]) + fields[|fields| - 1].Line() + "\n"
  }

  function Serialize(d: Draft): string {
    "---\n" + HeaderText(Fields(d)) + "---\n\n" + TrimSpace(d.body) + "\n"
  }

  method WriteField(b: string, field: Field, ghost written: seq<Field>) returns (r: string)
    requires b == "---\n" + HeaderText(written)
    ensures r == "---\n" + HeaderText(written + [field])
  {
    assert (written + [field])[..|written|] == written;
    r := b + field.key + ": " + field.text + "\n";
  }

  method WriteTags(tags: seq<string>) returns (text: string)
    ensures text == TagList(tags)
  {
    hide Quote, TrimSpace, JoinOn;
    text := "[";
    ghost var texts := TagTexts(tags);
    for i := 0 to |tags|
      invariant text == "[" + TextsSoFar(texts, i)
    {
      OneMoreText(texts, i);
      if i > 0 {
        text := text + ", ";
      }
      text := text + Quote(TrimSpace(tags[i]));
    }
    assert texts[..|tags|] == texts;
    text := text + "]";
  }

  ghost function TextsSoFar(texts: seq<string>, i: nat): string
    requires i <= |texts|
  {
    if i == 0 then "" else JoinOn(texts[..i], ',')
  }

  lemma OneMoreText(texts: seq<string>, i: nat)
    requires i < |texts|
    ensures TextsSoFar(texts, i + 1) == TextsSoFar(texts, i) + (if i == 0 then "" else ",") + texts[i]
  {
    assert texts[..i + 1] == texts[..i] + [texts[i]];
    if i > 0 { JoinMore(texts[..i], texts[i], ','); }
  }

  lemma {:induction false} JoinMore(parts: seq<string>, part: string, c: char)
    requires parts != []
    ensures JoinOn(parts + [part], c) == JoinOn(parts, c) + [c] + part
  {
    if |parts| > 1 {
      assert (parts + [part])[1..] == parts[1..] + [part];
      JoinMore(parts[1..], part, c);
    } else {
      assert (parts + [part])[1..] == [part];
    }
  }

  method SerializePost(d: Draft) returns (b: string)
    ensures b == Serialize(d)
  {
    hide HeaderText, TagList, Quote, TrimSpace;
    ghost var written: seq<Field> := [];
    b := "---\n";
    assert HeaderText([]) == "" by { NoHeader(); }
    b := WriteField(b, Field("title", Quote(d.title)), written);
    written := written + [Field("title", Quote(d.title))];
    b := WriteField(b, Field("slug", Quote(d.slug)), written);
    written := written + [Field("slug", Quote(d.slug))];
    b := WriteField(b, Field("date", Quote(d.date)), written);
    written := written + [Field("date", Quote(d.date))];
    if d.updated != "" {
      b := WriteField(b, Field("updated", Quote(d.updated)), written);
      written := written + [Field("updated", Quote(d.updated))];
    }
    var tags := WriteTags(d.tags);
    b := WriteField(b, Field("tags", tags), written);
    written := written + [Field("tags", tags)];
    b := WriteField(b, Field("summary", Quote(d.summary)), written);
    written := written + [Field("summary", Quote(d.summary))];
    b := WriteField(b, Field("draft", Bool(d.draft)), written);
    written := written + [Field("draft", Bool(d.draft))];
    b := WriteField(b, Field("toc", Bool(d.toc)), written);
    written := written + [Field("toc", Bool(d.toc))];
    assert written == Fields(d);
    b := b + "---\n\n" + TrimSpace(d.body) + "\n";
  }

  lemma NoHeader()
    ensures HeaderText([]) == ""
  {
  }

  // ---------------------------------------------------------------- reading

  const SEPARATOR := "\n---\n"

  function UnixLines(s: string): string { ReplaceAll(s, "\r\n", "\n") }

  /** The position of the first occurrence. */
  function IndexOf(s: string, part: string): (r: Option<nat>)
    ensures r.Some? ==> r.value + |part| <= |s|
  {
    if part <= s then Some(0)
    else if s == "" then None
    else match IndexOf(s[1..], part) case None => None case Some(k) => Some(k + 1)
  }

  function ParseLine(line: string): Option<(string, string)> {
    var l := TrimSpace(line);
    if l == "" || "#" <= l then None
    else match IndexOf(l, ":")
      case None => None
      case Some(k) => Some((TrimSpace(l[..k]), TrimChar(TrimSpace(l[k + 1..]), '"')))
  }

  function ParseLines(lines: seq<string>): map<string, string> {
    if lines == [] then map[]
    else
      var before := ParseLines(lines[..|lines| - 1]);
      match ParseLine(lines[|lines| - 1])
      case None => before
      case Some((key, value)) => before[key := value]
  }

  /** The header, as a map, and the Markdown text. A file without a header is all text. */
  function Split(file: string): (map<string, string>, string) {
    var text := UnixLines(file);
    if !("---\n" <= text) then (map[], file)
    else match IndexOf(text[4..], SEPARATOR)
      case None => (map[], file)
      case Some(k) =>
        (ParseLines(SplitOn(text[4..][..k], '\n')), WithoutPrefix(text[4..][k + |SEPARATOR|..], "\n"))
  }

  method SplitFrontMatter(file: string) returns (fm: map<string, string>, markdown: string)
    ensures (fm, markdown) == Split(file)
  {
    hide ParseLine, SplitOn, UnixLines;
    var text := UnixLines(file);
    if !("---\n" <= text) {
      return map[], file;
    }
    var rest := text[4..];
    var cut := IndexOf(rest, SEPARATOR);
    if cut.None? {
      return map[], file;
    }
    var lines := SplitOn(rest[..cut.value], '\n');
    fm := map[];
    for i := 0 to |lines|
      invariant fm == ParseLines(lines[..i])
    {
      assert lines[..i + 1][..i] == lines[..i];
      match ParseLine(lines[i]) {
        case None =>
        case Some((key, value)) => fm := fm[key := value];
      }
    }
    assert lines[..|lines|] == lines;
    markdown := WithoutPrefix(rest[cut.value + |SEPARATOR|..], "\n");
  }

  function GetField(fm: map<string, string>, key: string, fallback: string): string {
    if key in fm && TrimSpace(fm[key]) != "" then TrimSpace(fm[key]) else fallback
  }

  /** A summary made from the text before the "more" mark, empty when there is none. */
  type MoreSummary = string -> string

  /** The fields `loadPosts` reads; `body` is the source text. Times are left as they are written. */
  function Load(file: string, pathSlug: string, more: MoreSummary): Draft {
    var (fm, markdown) := Split(file);
    var slug := GetField(fm, "slug", pathSlug);
    var summary := GetField(fm, "summary", "");
    Draft(GetField(fm, "title", slug), slug, GetField(fm, "date", ""), GetField(fm, "updated", ""),
          ParseList(GetField(fm, "tags", "")), if summary != "" then summary else more(markdown),
          GetField(fm, "draft", "false") == "true", GetField(fm, "toc", "true") != "false", markdown)
  }

  // ---------------------------------------------------------------- a header is read as it was written

  predicate KeyWord(key: string) {
    key != "" && forall i :: 0 <= i < |key| ==> 'a' <= key[i] <= 'z'
  }

  predicate OneLine(s: string) { '\n' !in s }

  predicate GoodField(f: Field) {
    KeyWord(f.key) && Trimmed(f.text) && f.text != "" && OneLine(f.text)
  }

  predicate GoodFields(fields: seq<Field>) {
    forall i :: 0 <= i < |fields| ==> GoodField(fields[i])
  }

  function Lines(fields: seq<Field>): (lines: seq<string>)
    ensures |lines| == |fields| && forall i :: 0 <= i < |lines| ==> lines[i] == fields[i].Line()
  {
    seq(|fields|, i requires 0 <= i < |fields| => fields[i].Line())
  }

  lemma {:induction false} HeaderIsJoined(fields: seq<Field>)
    requires fields != []
    ensures HeaderText(fields) == JoinOn(Lines(fields), '\n') + "\n"
  {
    var last := |fields| - 1;
    var f := fields[last];
    if last == 0 {
      assert HeaderText(fields[..0]) == "";
    } else {
      HeaderIsJoined(fields[..last]);
      assert Lines(fields) == Lines(fields[..last]) + [f.Line()];
      JoinMore(Lines(fields[..last]), f.Line(), '\n');
    }
  }

  lemma {:induction false} FirstColon(key: string, rest: string)
    requires ':' !in key
    ensures IndexOf(key + ":" + rest, ":") == Some(|key|)
  {
    var s := key + ":" + rest;
    if key != "" {
      assert key[0] in key && key == [key[0]] + key[1..];
      assert s[1..] == key[1..] + ":" + rest && s[0] == key[0];
      FirstColon(key[1..], rest);
    }
  }

  lemma KeyIsClean(key: string)
    requires KeyWord(key)
    ensures Trimmed(key) && ':' !in key && !IsSpace(key[0]) && key[0] != '#' && key[0] != '-' && OneLine(key)
  {
  }

  lemma LineIsClean(f: Field)
    requires GoodField(f)
    ensures Trimmed(f.Line()) && f.Line() != "" && 'a' <= f.Line()[0] <= 'z' && OneLine(f.Line())
    ensures f.Line()[|f.Line()| - 1] != '\r'
  {
    hide IsSpace;
    ReturnIsSpace();
    KeyIsClean(f.key);
    var line := f.Line();
    assert line[|line| - 1] == f.text[|f.text| - 1];
  }

  lemma ReturnIsSpace()
    ensures IsSpace('\r')
  {
  }

  lemma LineParses(f: Field)
    requires GoodField(f)
    ensures ParseLine(f.Line()) == Some((f.key, TrimChar(f.text, '"')))
  {
    hide IsSpace, IndexOf, TrimChar;
    KeyIsClean(f.key);
    LineIsClean(f);
    var line := f.Line();
    assert line == f.key + ":" + (" " + f.text);
    FirstColon(f.key, " " + f.text);
    assert line[..|f.key|] == f.key && line[|f.key| + 1..] == " " + f.text;
    BlankIsSpace();
    TrimPadded(" ", f.text, "");
    assert " " + f.text + "" == " " + f.text;
  }

  /** A field is read however it is spaced and quoted. */
  lemma FieldReads(indent: string, key: string, gap: string, text: string, value: string)
    requires KeyWord(key) && AllSpace(indent) && AllSpace(gap) && Spells(text, value) && BareValue(value)
    requires Trimmed(":" + text)
    ensures ParseLine(indent + (key + gap + ":" + text)) == Some((key, value))
  {
    hide IndexOf, TrimChar, AllSpace, IsSpace, Spells, BareValue;
    KeyIsClean(key);
    var l := key + gap + ":" + text;
    assert l == key + gap + (":" + text);
    assert Trimmed(l) by { assert l[|l| - 1] == (":" + text)[|text|]; }
    assert AllSpace("") by { BlankIsSpace(); }
    TrimPadded(indent, l, "");
    assert indent + l + "" == indent + l;
    assert ':' !in key + gap by { NoColon(key, gap); }
    FirstColon(key + gap, text);
    assert l[..|key + gap|] == key + gap && l[|key + gap| + 1..] == text;
    TrimPadded("", key, gap);
    assert "" + key + gap == key + gap;
    SpelledReads(text, value);
  }

  lemma NoColon(key: string, gap: string)
    requires KeyWord(key) && AllSpace(gap)
    ensures ':' !in key + gap
  {
    assert !IsSpace(':');
  }

  /** Blank lines and comments say nothing. */
  lemma CommentsAreSkipped(indent: string, comment: string)
    requires AllSpace(indent)
    ensures ParseLine(indent) == None
    ensures Trimmed("#" + comment) ==> ParseLine(indent + ("#" + comment)) == None
  {
    hide IndexOf, AllSpace;
    assert AllSpace("") by { BlankIsSpace(); }
    if Trimmed("#" + comment) {
      TrimPadded(indent, "#" + comment, "");
      assert indent + ("#" + comment) + "" == indent + ("#" + comment);
    }
  }

  lemma BlankIsSpace()
    ensures AllSpace(" ") && AllSpace("")
  {
  }

  ghost predicate DistinctKeys(fields: seq<Field>) {
    forall i, j :: 0 <= i < j < |fields| ==> fields[i].key != fields[j].key
  }

  lemma LinesLast(fields: seq<Field>)
    ensures |Lines(fields)| == |fields|
    ensures var last := |fields| - 1;
            if fields == [] then Lines(fields) == []
            else Lines(fields)[..last] == Lines(fields[..last]) && Lines(fields)[last] == fields[last].Line()
  {
  }

  /** The map holds the fields and nothing else. */
  ghost predicate Holds(fm: map<string, string>, fields: seq<Field>) {
    && (forall i :: 0 <= i < |fields| ==> fields[i].key in fm && fm[fields[i].key] == TrimChar(fields[i].text, '"'))
    && (forall key :: key in fm ==> exists i :: 0 <= i < |fields| && fields[i].key == key)
  }

  lemma HoldsMore(fm: map<string, string>, fields: seq<Field>, last: Field)
    requires Holds(fm, fields) && forall i :: 0 <= i < |fields| ==> fields[i].key != last.key
    ensures Holds(fm[last.key := TrimChar(last.text, '"')], fields + [last])
  {
    hide TrimChar;
    var all, more := fields + [last], fm[last.key := TrimChar(last.text, '"')];
    forall key | key in more ensures exists i :: 0 <= i < |all| && all[i].key == key {
      if key == last.key {
        assert all[|fields|].key == key;
      } else {
        var i :| 0 <= i < |fields| && fields[i].key == key;
        assert all[i].key == key;
      }
    }
  }

  lemma {:induction false} FieldsParsed(fields: seq<Field>)
    requires GoodFields(fields) && DistinctKeys(fields)
    ensures Holds(ParseLines(Lines(fields)), fields)
  {
    hide GoodField, ParseLine, TrimChar, Lines, Holds;
    LinesLast(fields);
    if fields == [] {
      assert Holds(map[], []) by { NothingHeld(); }
    } else {
      var last := |fields| - 1;
      FieldsParsed(fields[..last]);
      LineParses(fields[last]);
      HoldsMore(ParseLines(Lines(fields[..last])), fields[..last], fields[last]);
      assert fields[..last] + [fields[last]] == fields;
    }
  }

  lemma NothingHeld()
    ensures Holds(map[], [])
  {
  }

  /** Carriage returns only where no line ends. */
  predicate NoWindowsEnd(s: string) {
    forall i :: 0 <= i < |s| && s[i] == '\r' ==> i + 1 < |s| && s[i + 1] != '\n'
  }

  lemma {:induction false} LetterAfterNewline(lines: seq<string>)
    requires lines != []
    requires forall i :: 0 <= i < |lines| ==>
      lines[i] != "" && 'a' <= lines[i][0] <= 'z' && OneLine(lines[i]) && lines[i][|lines[i]| - 1] != '\r'
    ensures var h := JoinOn(lines, '\n');
            && h != "" && 'a' <= h[0] <= 'z'
            && NoWindowsEnd(h)
            && (forall i :: 0 <= i < |h| && h[i] == '\n' ==> i + 1 < |h| && 'a' <= h[i + 1] <= 'z')
  {
    if |lines| > 1 {
      LetterAfterNewline(lines[1..]);
      var h, first, rest := JoinOn(lines, '\n'), lines[0], JoinOn(lines[1..], '\n');
      forall i | 0 <= i < |first| ensures h[i] != '\n' { assert h[i] == first[i] && first[i] in first; }
      forall i | 0 <= i < |h| && h[i] == '\r' ensures i + 1 < |h| && h[i + 1] != '\n' {
        if i < |first| {
          assert h[i] == first[i] && i + 1 < |first| && h[i + 1] == first[i + 1];
        } else {
          assert i > |first| && h[i] == rest[i - |first| - 1] && h[i + 1] == rest[i - |first|];
        }
      }
      forall i | 0 <= i < |h| && h[i] == '\n' ensures i + 1 < |h| && 'a' <= h[i + 1] <= 'z' {
        if i == |first| {
          assert h[i + 1] == rest[0];
        } else {
          assert h[i] == rest[i - |first| - 1];
          assert h[i + 1] == rest[i - |first|];
        }
      }
    } else {
      forall i | 0 <= i < |lines[0]| ensures lines[0][i] != '\n' { assert lines[0][i] in lines[0]; }
    }
  }

  /** The separator is not found before the end of the header. */
  lemma SeparatorFound(header: string, rest: string)
    requires forall i :: 0 <= i < |header| && header[i] == '\n' ==> i + 1 < |header| && 'a' <= header[i + 1] <= 'z'
    ensures IndexOf(header + SEPARATOR + rest, SEPARATOR) == Some(|header|)
    decreases |header|
  {
    var s := header + SEPARATOR + rest;
    if header == "" {
      assert SEPARATOR <= s;
    } else {
      assert s[1..] == header[1..] + SEPARATOR + rest;
      NotAtStart(header, rest);
      forall i | 0 <= i < |header[1..]| && header[1..][i] == '\n'
        ensures i + 1 < |header[1..]| && 'a' <= header[1..][i + 1] <= 'z'
      {
        assert header[i + 1] == '\n';
      }
      SeparatorFound(header[1..], rest);
    }
  }

  lemma NotAtStart(header: string, rest: string)
    requires header != "" && (header[0] == '\n' ==> 1 < |header| && 'a' <= header[1] <= 'z')
    ensures !(SEPARATOR <= header + SEPARATOR + rest)
  {
    var s := header + SEPARATOR + rest;
    assert s[0] == header[0];
    if header[0] == '\n' { assert s[1] == header[1]; }
    assert SEPARATOR[0] == '\n' && SEPARATOR[1] == '-';
  }

  // ---------------------------------------------------------------- line ends

  lemma NoReturnKept(head: string, rest: string)
    requires NoWindowsEnd(head)
    ensures UnixLines(head + rest) == head + UnixLines(rest)
  {
    forall i | 0 <= i < |head| ensures !("\r\n" <= (head + rest)[i..]) {
      assert (head + rest)[i..][0] == head[i];
      assert head[i] == '\r' ==> (head + rest)[i..][1] == head[i + 1];
    }
    ReplaceSkips(head, rest, "\r\n", "\n");
  }

  /** A text that does not end in a carriage return can be normalised on its own. */
  lemma {:induction false} UnixAppend(s: string)
    requires s != "" ==> s[|s| - 1] != '\r'
    ensures UnixLines(s + "\n") == UnixLines(s) + "\n"
    decreases |s|
  {
    var t := s + "\n";
    if s == "" {
      assert t == "\n" && t[1..] == "";
      assert !("\r\n" <= t);
    } else if "\r\n" <= s {
      assert t[2..] == s[2..] + "\n";
      assert "\r\n" <= t;
      UnixAppend(s[2..]);
    } else {
      assert t[0] == s[0] && (|s| > 1 ==> t[1] == s[1]);
      assert t[1..] == s[1..] + "\n";
      UnixAppend(s[1..]);
    }
  }

  /** Normalising makes a text shorter exactly when it has Windows line ends. */
  lemma {:induction false} UnixShorter(s: string)
    ensures |UnixLines(s)| <= |s|
    ensures |UnixLines(s)| == |s| <==> Free(s, "\r\n")
    decreases |s|
  {
    if s == "" {
    } else if "\r\n" <= s {
      UnixShorter(s[2..]);
      assert s[0..] == s;
    } else {
      UnixShorter(s[1..]);
      forall i | 0 <= i <= |s| - 1 ensures s[1..][i..] == s[i + 1..] {
      }
      if Free(s[1..], "\r\n") {
        forall i | 0 <= i <= |s| ensures !("\r\n" <= s[i..]) {
          if i > 0 { assert s[i..] == s[1..][i - 1..]; } else { assert s[0..] == s; }
        }
      }
    }
  }

  lemma UnixKeepsIffFree(s: string)
    ensures UnixLines(s) == s <==> Free(s, "\r\n")
  {
    UnixShorter(s);
    if Free(s, "\r\n") { ReplaceNothing(s, "\r\n", "\n"); }
  }

  // ---------------------------------------------------------------- the round trip

  /** No value has a line break. */
  predicate OneLines(d: Draft) {
    && OneLine(d.title) && OneLine(d.slug) && OneLine(d.date) && OneLine(d.updated) && OneLine(d.summary)
    && forall i :: 0 <= i < |d.tags| ==> OneLine(d.tags[i])
  }

  /** What the header can carry. */
  predicate Carried(d: Draft) {
    && OneLines(d)
    && Plain(d.title) && Plain(d.slug) && Plain(d.date) && Plain(d.updated) && Plain(d.summary)
    && PlainTags(d.tags)
  }

  /** A draft with a title and a slug, as every saved one has. */
  predicate Writable(d: Draft) { Carried(d) && d.title != "" && d.slug != "" }

  lemma {:induction false} ReplacingAddsNone(s: string, pat: string, sub: string, c: char)
    requires pat != "" && c !in s && c !in sub
    ensures c !in ReplaceAll(s, pat, sub)
    decreases |s|
  {
    if s != "" {
      if pat <= s { ReplacingAddsNone(s[|pat|..], pat, sub, c); } else { ReplacingAddsNone(s[1..], pat, sub, c); }
    }
  }

  lemma QuoteOneLine(value: string)
    requires OneLine(value)
    ensures OneLine(Quote(value))
  {
    hide ReplaceAll;
    ReplacingAddsNone(value, "\\", "\\\\", '\n');
    ReplacingAddsNone(ReplaceAll(value, "\\", "\\\\"), "\"", "\\\"", '\n');
  }

  lemma {:induction false} JoinOneLine(parts: seq<string>, c: char)
    requires parts != [] && OneLine([c]) && forall i :: 0 <= i < |parts| ==> OneLine(parts[i])
    ensures OneLine(JoinOn(parts, c))
  {
    if |parts| > 1 { JoinOneLine(parts[1..], c); }
  }

  lemma TagListGood(tags: seq<string>)
    requires forall i :: 0 <= i < |tags| ==> OneLine(tags[i])
    ensures OneLine(TagList(tags)) && Trimmed(TagList(tags)) && TagList(tags) != ""
    ensures TrimChar(TagList(tags), '"') == TagList(tags)
  {
    hide Quote, TrimSpace, IsSpace;
    forall i | 0 <= i < |tags| ensures OneLine(TagTexts(tags)[i]) {
      TrimmedFrom(tags[i], '\n');
      QuoteOneLine(TrimSpace(tags[i]));
    }
    if tags != [] { JoinOneLine(TagTexts(tags), ','); }
    assert !IsSpace('[') && !IsSpace(']') by { BracketsAreNoSpace(); }
  }

  lemma BracketsAreNoSpace()
    ensures !IsSpace('[') && !IsSpace(']')
  {
  }

  lemma QuotedGood(key: string, value: string)
    requires KeyWord(key) && OneLine(value)
    ensures GoodField(Field(key, Quote(value)))
  {
    hide Quote;
    QuotedTrimmed(value);
    QuoteOneLine(value);
  }

  lemma FieldKeys(d: Draft)
    ensures DistinctKeys(Fields(d)) && forall i :: 0 <= i < |Fields(d)| ==> KeyWord(Fields(d)[i].key)
  {
    hide Quote, TagList;
  }

  lemma FieldsGood(d: Draft)
    requires OneLines(d)
    ensures GoodFields(Fields(d)) && DistinctKeys(Fields(d))
  {
    hide Quote, TagList, OneLine, KeyWord, Trimmed, Bool, GoodField, DistinctKeys;
    FieldKeys(d);
    PlainKeys();
    QuotedGood("title", d.title);
    QuotedGood("slug", d.slug);
    QuotedGood("date", d.date);
    QuotedGood("updated", d.updated);
    QuotedGood("summary", d.summary);
    TagsGood(d.tags);
    BoolFieldGood("draft", d.draft);
    BoolFieldGood("toc", d.toc);
  }

  lemma PlainKeys()
    ensures KeyWord("title") && KeyWord("slug") && KeyWord("date") && KeyWord("updated") && KeyWord("summary")
    ensures KeyWord("tags") && KeyWord("draft") && KeyWord("toc")
  {
  }

  lemma TagsGood(tags: seq<string>)
    requires forall i :: 0 <= i < |tags| ==> OneLine(tags[i])
    ensures GoodField(Field("tags", TagList(tags)))
  {
    hide TagList;
    PlainKeys();
    TagListGood(tags);
  }

  lemma BoolFieldGood(key: string, b: bool)
    requires KeyWord(key)
    ensures GoodField(Field(key, Bool(b)))
  {
    BoolGood(b);
  }

  lemma BoolGood(b: bool)
    ensures Trimmed(Bool(b)) && Bool(b) != "" && OneLine(Bool(b)) && TrimChar(Bool(b), '"') == Bool(b) && TrimSpace(Bool(b)) == Bool(b)
  {
  }

  /** The file with Unix line ends. */
  lemma FileNormalised(d: Draft, header: string)
    requires HeaderText(Fields(d)) == header + "\n" && NoWindowsEnd(header)
    ensures UnixLines(Serialize(d)) == "---\n" + (header + SEPARATOR + ("\n" + (UnixLines(TrimSpace(d.body)) + "\n")))
  {
    hide ReplaceAll, HeaderText, Fields, TrimSpace;
    var t := TrimSpace(d.body);
    TrimSpaceEnds(d.body);
    UnixAppend(t);
    var head := "---\n" + header + "\n---\n\n";
    NoReturnKept(head, t + "\n");
    assert Serialize(d) == head + (t + "\n");
    assert head + (UnixLines(t) + "\n") == "---\n" + (header + SEPARATOR + ("\n" + (UnixLines(t) + "\n")));
  }

  /** A normalised file is cut at the end of its header. */
  lemma CutAtSeparator(file: string, header: string, markdown: string)
    requires UnixLines(file) == "---\n" + (header + SEPARATOR + ("\n" + markdown))
    requires forall i :: 0 <= i < |header| && header[i] == '\n' ==> i + 1 < |header| && 'a' <= header[i + 1] <= 'z'
    ensures Split(file) == (ParseLines(SplitOn(header, '\n')), markdown)
  {
    hide UnixLines, IndexOf, ParseLines, SplitOn, WithoutPrefix;
    var rest := header + SEPARATOR + ("\n" + markdown);
    AfterFirst("---\n", rest);
    SeparatorFound(header, "\n" + markdown);
    Sliced(header, "\n" + markdown);
    PrefixDropped(markdown);
  }

  lemma AfterFirst(a: string, b: string)
    ensures a <= a + b && (a + b)[|a|..] == b
  {
  }

  lemma Sliced(header: string, tail: string)
    ensures var rest := header + SEPARATOR + tail; rest[..|header|] == header && rest[|header| + |SEPARATOR|..] == tail
  {
  }

  lemma PrefixDropped(markdown: string)
    ensures WithoutPrefix("\n" + markdown, "\n") == markdown
  {
  }

  /** Splitting the file gives the header's fields and the text, with Unix line ends. */
  lemma FileSplits(d: Draft)
    requires OneLines(d)
    ensures Split(Serialize(d)) == (ParseLines(Lines(Fields(d))), UnixLines(TrimSpace(d.body)) + "\n")
  {
    hide UnixLines, HeaderText, Serialize, Split, Fields, ParseLines, SplitOn, TrimSpace, Lines, JoinOn, OneLines, GoodFields, DistinctKeys, NoWindowsEnd;
    var fields := Fields(d);
    FieldsGood(d);
    FieldsExist(d);
    HeaderIsJoined(fields);
    HeaderShape(fields);
    FileNormalised(d, JoinOn(Lines(fields), '\n'));
    CutAtSeparator(Serialize(d), JoinOn(Lines(fields), '\n'), UnixLines(TrimSpace(d.body)) + "\n");
    LinesSplit(fields);
  }

  lemma LinesSplit(fields: seq<Field>)
    requires GoodFields(fields) && fields != []
    ensures Lines(fields) != [] && SplitOn(JoinOn(Lines(fields), '\n'), '\n') == Lines(fields)
  {
    hide GoodFields, OneLine, SplitOn, JoinOn;
    LinesAreClean(fields);
    SplitJoined(Lines(fields), '\n');
  }

  lemma FieldsExist(d: Draft)
    ensures Fields(d) != []
  {
  }

  lemma TrimSpaceEnds(s: string)
    ensures var t := TrimSpace(s); t != "" ==> t[|t| - 1] != '\r'
  {
  }

  lemma LinesAreClean(fields: seq<Field>)
    requires GoodFields(fields)
    ensures forall i :: 0 <= i < |fields| ==>
      && Lines(fields)[i] != "" && 'a' <= Lines(fields)[i][0] <= 'z' && OneLine(Lines(fields)[i])
      && '\n' !in Lines(fields)[i] && Lines(fields)[i][|Lines(fields)[i]| - 1] != '\r'
  {
    hide GoodField;
    forall i | 0 <= i < |fields|
      ensures Lines(fields)[i] != "" && 'a' <= Lines(fields)[i][0] <= 'z' && OneLine(Lines(fields)[i])
      ensures Lines(fields)[i][|Lines(fields)[i]| - 1] != '\r'
    {
      LineIsClean(fields[i]);
    }
  }

  lemma HeaderShape(fields: seq<Field>)
    requires GoodFields(fields) && fields != []
    ensures Lines(fields) != []
    ensures var header := JoinOn(Lines(fields), '\n');
            NoWindowsEnd(header)
            && forall i :: 0 <= i < |header| && header[i] == '\n' ==> i + 1 < |header| && 'a' <= header[i + 1] <= 'z'
  {
    hide GoodFields, OneLine, NoWindowsEnd;
    LinesAreClean(fields);
    LetterAfterNewline(Lines(fields));
  }

  /** A field of the file as it is read. */
  lemma FieldRead(d: Draft, i: nat, fallback: string)
    requires OneLines(d) && i < |Fields(d)|
    ensures var fm := ParseLines(Lines(Fields(d)));
            GetField(fm, Fields(d)[i].key, fallback)
            == (var value := TrimSpace(TrimChar(Fields(d)[i].text, '"')); if value != "" then value else fallback)
  {
    hide Fields, TrimSpace, TrimChar, ParseLines;
    FieldsGood(d);
    FieldsParsed(Fields(d));
  }

  lemma QuotedRead(d: Draft, i: nat, value: string, fallback: string)
    requires OneLines(d) && i < |Fields(d)| && Fields(d)[i].text == Quote(value) && Plain(value)
    ensures GetField(ParseLines(Lines(Fields(d))), Fields(d)[i].key, fallback) == if value != "" then value else fallback
  {
    hide TrimSpace, TrimChar, Quote, Fields, ParseLines, GetField, OneLines;
    FieldRead(d, i, fallback);
    ValueSurvivesIffPlain(value);
    QuotedTrimmed(value);
  }

  lemma BoolRead(d: Draft, i: nat, value: bool, fallback: string)
    requires OneLines(d) && i < |Fields(d)| && Fields(d)[i].text == Bool(value)
    ensures GetField(ParseLines(Lines(Fields(d))), Fields(d)[i].key, fallback) == Bool(value)
  {
    hide TrimSpace, TrimChar, Fields, ParseLines, GetField, OneLines;
    FieldRead(d, i, fallback);
    BoolGood(value);
  }

  lemma TagsRead(d: Draft)
    requires Writable(d)
    ensures ParseList(GetField(ParseLines(Lines(Fields(d))), "tags", "")) == d.tags
  {
    hide TrimSpace, TrimChar, ParseLines, GetField, TagList, ParseList, Quote, Plain, OneLine, PlainTags;
    FieldRead(d, |Fields(d)| - 4, "");
    TagListGood(d.tags);
    TagsSurviveIffPlain(d.tags);
  }

  lemma UpdatedRead(d: Draft)
    requires Writable(d)
    ensures GetField(ParseLines(Lines(Fields(d))), "updated", "") == d.updated
  {
    hide TrimSpace, TrimChar, ParseLines, TagList, Quote, Plain, OneLine, PlainTags;
    if d.updated != "" {
      QuotedRead(d, 3, d.updated, "");
    } else {
      AbsentUpdated(d);
    }
  }

  lemma AbsentUpdated(d: Draft)
    requires OneLines(d) && d.updated == ""
    ensures "updated" !in ParseLines(Lines(Fields(d)))
  {
    hide ParseLines, Quote, TagList;
    FieldsGood(d);
    FieldsParsed(Fields(d));
  }

  /** Every value of a writable draft is there again when its file is loaded. */
  lemma LoadedAgain(d: Draft, pathSlug: string, more: MoreSummary)
    requires Writable(d)
    ensures var markdown := UnixLines(TrimSpace(d.body)) + "\n";
            Load(Serialize(d), pathSlug, more)
            == d.(body := markdown, summary := if d.summary != "" then d.summary else more(markdown))
  {
    hide ParseLines, Serialize, Split, GetField, Quote, TagList, TrimSpace, ParseList, UnixLines, Plain, OneLine, PlainTags;
    FileSplits(d);
    var n := |Fields(d)|;
    QuotedRead(d, 0, d.title, d.slug);
    QuotedRead(d, 1, d.slug, pathSlug);
    QuotedRead(d, 2, d.date, "");
    UpdatedRead(d);
    TagsRead(d);
    QuotedRead(d, n - 3, d.summary, "");
    BoolRead(d, n - 2, d.draft, "false");
    BoolRead(d, n - 1, d.toc, "true");
  }

  // ---------------------------------------------------------------- and nothing else is

  /** The header of the file gives every value again. */
  ghost predicate ReadsBack(d: Draft) {
    var fm := Split(Serialize(d)).0;
    && GetField(fm, "title", "") == d.title
    && GetField(fm, "slug", "") == d.slug
    && GetField(fm, "date", "") == d.date
    && GetField(fm, "updated", "") == d.updated
    && GetField(fm, "summary", "") == d.summary
    && ParseList(GetField(fm, "tags", "")) == d.tags
  }

  ghost predicate ValuesOneLine(fm: map<string, string>) {
    forall key :: key in fm ==> OneLine(fm[key])
  }

  lemma ParsedOneLine(line: string)
    requires OneLine(line)
    ensures ParseLine(line).Some? ==> OneLine(ParseLine(line).value.1)
  {
    hide IndexOf;
    var l := TrimSpace(line);
    TrimmedFrom(line, '\n');
    match IndexOf(l, ":") {
      case None =>
      case Some(k) => TrimmedFrom(l[k + 1..], '\n');
    }
  }

  lemma {:induction false} LinesOneLine(lines: seq<string>)
    requires forall i :: 0 <= i < |lines| ==> OneLine(lines[i])
    ensures ValuesOneLine(ParseLines(lines))
  {
    hide ParseLine, OneLine;
    if lines != [] {
      LinesOneLine(lines[..|lines| - 1]);
      ParsedOneLine(lines[|lines| - 1]);
    }
  }

  /** No value that is read from a file has a line break. */
  lemma SplitOneLines(file: string)
    ensures ValuesOneLine(Split(file).0)
  {
    hide ParseLines, ReplaceAll, IndexOf;
    var text := UnixLines(file);
    if "---\n" <= text {
      match IndexOf(text[4..], SEPARATOR) {
        case None =>
        case Some(k) => LinesOneLine(SplitOn(text[4..][..k], '\n'));
      }
    }
  }

  lemma FieldOneLine(fm: map<string, string>, key: string)
    requires ValuesOneLine(fm)
    ensures OneLine(GetField(fm, key, ""))
  {
    if key in fm { TrimmedFrom(fm[key], '\n'); }
  }

  lemma {:induction false} PiecesFrom(s: string, c: char, d: char)
    requires d !in s
    ensures forall i :: 0 <= i < |SplitOn(s, c)| ==> d !in SplitOn(s, c)[i]
  {
    if s != "" { PiecesFrom(s[1..], c, d); }
  }

  lemma {:induction false} ItemsOneLine(parts: seq<string>)
    requires forall i :: 0 <= i < |parts| ==> OneLine(parts[i])
    ensures forall i :: 0 <= i < |ListItems(parts)| ==> OneLine(ListItems(parts)[i])
  {
    if parts != [] {
      ItemsOneLine(parts[..|parts| - 1]);
      TrimmedFrom(parts[|parts| - 1], '\n');
    }
  }

  lemma ListOneLine(value: string)
    requires OneLine(value)
    ensures forall i :: 0 <= i < |ParseList(value)| ==> OneLine(ParseList(value)[i])
  {
    hide TrimSpace, SplitOn, ListItems;
    TrimmedFrom(value, '\n');
    PiecesFrom(ListBody(value), ',', '\n');
    ItemsOneLine(SplitOn(ListBody(value), ','));
  }

  lemma ReadIsOneLine(d: Draft)
    requires ReadsBack(d)
    ensures OneLines(d)
  {
    hide Split, Serialize, GetField, ParseList, OneLine, ValuesOneLine;
    var fm := Split(Serialize(d)).0;
    SplitOneLines(Serialize(d));
    FieldOneLine(fm, "title");
    FieldOneLine(fm, "slug");
    FieldOneLine(fm, "date");
    FieldOneLine(fm, "updated");
    FieldOneLine(fm, "summary");
    FieldOneLine(fm, "tags");
    ListOneLine(GetField(fm, "tags", ""));
  }

  lemma QuotedField(d: Draft, i: nat, value: string)
    requires OneLines(d) && i < |Fields(d)| && Fields(d)[i].text == Quote(value)
    ensures GetField(Split(Serialize(d)).0, Fields(d)[i].key, "") == value <==> Plain(value)
  {
    hide TrimSpace, TrimChar, Quote, Fields, ParseLines, GetField, OneLines, Serialize, Split, UnixLines;
    FileSplits(d);
    FieldRead(d, i, "");
    ValueSurvivesIffPlain(value);
    QuotedTrimmed(value);
  }

  lemma TagsField(d: Draft)
    requires OneLines(d)
    ensures ParseList(GetField(Split(Serialize(d)).0, "tags", "")) == d.tags <==> PlainTags(d.tags)
  {
    hide TrimSpace, TrimChar, ParseLines, GetField, TagList, ParseList, Quote, Plain, OneLine, PlainTags, Serialize, Split, UnixLines;
    FileSplits(d);
    FieldRead(d, |Fields(d)| - 4, "");
    TagListGood(d.tags);
    TagsSurviveIffPlain(d.tags);
  }

  lemma UpdatedField(d: Draft)
    requires OneLines(d)
    ensures GetField(Split(Serialize(d)).0, "updated", "") == d.updated <==> Plain(d.updated)
  {
    hide TrimSpace, TrimChar, ParseLines, TagList, Quote, OneLine, Serialize, Split, UnixLines;
    if d.updated != "" {
      QuotedField(d, 3, d.updated);
    } else {
      FileSplits(d);
      AbsentUpdated(d);
    }
  }

  /** The values of a draft are there again when its file is read if and only if the header can carry them. */
  lemma ReadsBackIffCarried(d: Draft)
    ensures ReadsBack(d) <==> Carried(d)
  {
    hide Serialize, Split, GetField, Quote, TagList, ParseList, Plain, OneLines, PlainTags;
    if ReadsBack(d) { ReadIsOneLine(d); }
    if OneLines(d) {
      var n := |Fields(d)|;
      QuotedField(d, 0, d.title);
      QuotedField(d, 1, d.slug);
      QuotedField(d, 2, d.date);
      UpdatedField(d);
      TagsField(d);
      QuotedField(d, n - 3, d.summary);
    }
  }

  // ---------------------------------------------------------------- saving again

  lemma UnixTrimmed(t: string)
    requires Trimmed(t)
    ensures Trimmed(UnixLines(t)) && (t != "" ==> UnixLines(t) != "")
  {
    if t != "" {
      UnixLast(t);
      UnixFirst(t);
    }
  }

  lemma UnixFirst(t: string)
    requires t != "" && !IsSpace(t[0])
    ensures UnixLines(t) != "" && UnixLines(t)[0] == t[0]
  {
    assert !("\r\n" <= t) by { assert IsSpace('\r'); }
  }

  lemma {:induction false} UnixLast(t: string)
    requires t != "" && !IsSpace(t[|t| - 1])
    ensures UnixLines(t) != "" && UnixLines(t)[|UnixLines(t)| - 1] == t[|t| - 1]
    decreases |t|
  {
    assert IsSpace('\n');
    if "\r\n" <= t {
      assert |t| > 2;
      UnixLast(t[2..]);
    } else {
      assert UnixLines(t) == [t[0]] + UnixLines(t[1..]);
      if |t| > 1 {
        UnixLast(t[1..]);
      } else {
        assert t[1..] == "" && UnixLines("") == "";
      }
    }
  }

  lemma TrimEndNewline(t: string)
    requires Trimmed(t)
    ensures TrimSpace(t + "\n") == t
  {
    assert AllSpace("\n") && AllSpace("");
    TrimPadded("", t, "\n");
    assert "" + t + "\n" == t + "\n";
  }

  lemma {:induction false} HeaderJoin(a: seq<Field>, b: seq<Field>)
    ensures HeaderText(a + b) == HeaderText(a) + HeaderText(b)
  {
    if b == [] {
      assert a + b == a;
    } else {
      assert (a + b)[..|a + b| - 1] == a + b[..|b| - 1];
      HeaderJoin(a, b[..|b| - 1]);
    }
  }

  lemma QuoteSecond(value: string)
    ensures |Quote(value)| >= 2 && (Quote(value)[1] == '"' <==> value == "")
  {
    if value != "" {
      var once := ReplaceAll(value, "\\", "\\\\");
      assert once != "" && once[0] == value[0];
      var twice := ReplaceAll(once, "\"", "\\\"");
      assert twice != "" && twice[0] != '"';
    }
  }

  lemma SummaryStands(d: Draft) returns (before: string, after: string)
    ensures forall s: string, body: string ::
      (Serialize(d.(summary := s, body := body)) == before + (Quote(s) + (after + TrimSpace(body) + "\n")))
  {
    hide HeaderText, Quote, TrimSpace, Fields;
    FieldCount(d);
    var n := |Fields(d)|;
    var first, last := Fields(d)[..n - 3], Fields(d)[n - 2..];
    before, after := "---\n" + HeaderText(first) + "summary: ", "\n" + HeaderText(last) + "---\n\n";
    forall s: string, body: string
      ensures Serialize(d.(summary := s, body := body)) == before + (Quote(s) + (after + TrimSpace(body) + "\n"))
    {
      SummaryField(d, s, body);
      HeaderAround(first, Field("summary", Quote(s)), last);
    }
  }

  lemma FieldCount(d: Draft)
    ensures |Fields(d)| >= 3
  {
  }

  lemma SummaryField(d: Draft, s: string, body: string)
    ensures var n := |Fields(d)|;
            Fields(d.(summary := s, body := body)) == Fields(d)[..n - 3] + [Field("summary", Quote(s))] + Fields(d)[n - 2..]
  {
    hide Quote, TagList;
    var head := [Field("title", Quote(d.title)), Field("slug", Quote(d.slug)), Field("date", Quote(d.date))]
      + (if d.updated != "" then [Field("updated", Quote(d.updated))] else []) + [Field("tags", TagList(d.tags))];
    var tail := [Field("draft", Bool(d.draft)), Field("toc", Bool(d.toc))];
    assert Fields(d) == head + ([Field("summary", Quote(d.summary))] + tail);
    assert Fields(d.(summary := s, body := body)) == head + ([Field("summary", Quote(s))] + tail);
    assert |Fields(d)| == |head| + 3;
  }

  lemma HeaderAround(first: seq<Field>, field: Field, last: seq<Field>)
    ensures HeaderText(first + [field] + last) == HeaderText(first) + field.key + ": " + field.text + "\n" + HeaderText(last)
  {
    hide HeaderText;
    HeaderJoin(first + [field], last);
    HeaderJoin(first, [field]);
    OneField(field);
  }

  lemma OneField(field: Field)
    ensures HeaderText([field]) == field.Line() + "\n"
  {
    assert [field][..0] == [] && HeaderText([]) == "";
  }

  /** A summary that was made up shows in the file. */
  lemma SummaryShows(d: Draft, s: string, body: string)
    requires d.summary == "" && s != ""
    ensures Serialize(d.(summary := s, body := body)) != Serialize(d)
  {
    hide Serialize, Quote;
    var before, after := SummaryStands(d);
    assert d.(summary := "", body := d.body) == d;
    QuoteSecond(s);
    QuoteSecond("");
    var a, b := Serialize(d.(summary := s, body := body)), Serialize(d);
    assert a[|before| + 1] == Quote(s)[1] && b[|before| + 1] == Quote("")[1];
  }

  lemma BodyShows(d: Draft, a: string, b: string)
    requires TrimSpace(a) != TrimSpace(b)
    ensures Serialize(d.(body := a)) != Serialize(d.(body := b))
  {
    hide HeaderText, Fields, TrimSpace;
    SameHeader(d, a);
    SameHeader(d, b);
    var header := "---\n" + HeaderText(Fields(d)) + "---\n\n";
    DifferentEnds(header, TrimSpace(a), TrimSpace(b));
  }

  lemma DifferentEnds(header: string, a: string, b: string)
    requires a != b
    ensures header + a + "\n" != header + b + "\n"
  {
    assert forall s: string :: (header + s + "\n")[|header|..|header| + |s|] == s;
  }

  /** Loading a post and saving it again writes the same bytes if and only if its body has no Windows line ends and
      no summary is made up for it, because it has one or its text gives none. Lines of dashes do no harm. */
  lemma SavedAgain(d: Draft, pathSlug: string, more: MoreSummary)
    requires Writable(d)
    ensures var unix := UnixLines(TrimSpace(d.body));
            var summary := if d.summary != "" then d.summary else more(unix + "\n");
            var loaded := Load(Serialize(d), pathSlug, more);
            && Serialize(loaded) == Serialize(d.(body := unix, summary := summary))
            && (Serialize(loaded) == Serialize(d) <==> Free(TrimSpace(d.body), "\r\n") && summary == d.summary)
  {
    hide UnixLines, TrimSpace, Serialize, Load, Free, Writable;
    var t := TrimSpace(d.body);
    var unix := UnixLines(t);
    var summary := if d.summary != "" then d.summary else more(unix + "\n");
    LoadedAgain(d, pathSlug, more);
    UnixTrimmed(t);
    TrimEndNewline(unix);
    TrimmedStays(unix);
    UnixKeepsIffFree(t);
    var loaded := Load(Serialize(d), pathSlug, more);
    var shown := d.(summary := summary);
    assert loaded == shown.(body := unix + "\n");
    SameBody(shown, unix + "\n", unix);
    if summary != d.summary {
      SummaryShows(d, summary, unix);
      assert d.(summary := summary, body := unix) == shown.(body := unix);
    } else {
      assert shown == d;
      TrimmedStays(t);
      SameBody(d, t, d.body);
      assert d.(body := d.body) == d;
      if unix != t { BodyShows(d, unix, t); }
    }
  }

  lemma SameBody(d: Draft, a: string, b: string)
    requires TrimSpace(a) == TrimSpace(b)
    ensures Serialize(d.(body := a)) == Serialize(d.(body := b))
  {
    hide TrimSpace, HeaderText, Fields;
    SameHeader(d, a);
    SameHeader(d, b);
  }

  lemma TrimmedStays(s: string)
    requires Trimmed(s)
    ensures TrimSpace(s) == s
  {
  }

  lemma SameHeader(d: Draft, body: string)
    ensures Fields(d.(body := body)) == Fields(d)
  {
  }
}
