/** The WordPress importer's batch: every file a page refers to gets one ID, and bodies refer to it by a
    placeholder until the file has been saved.

    A body is modelled after the HTML has been taken apart: texts, figures and links, in order. */
module Importer {
  import opened Text
  import opened Substitution
  import opened Links

  const MARK := "postizer://media/"

  datatype Media = Media(id: string, url: string)

  /** `mediaPlaceholderID`. */
  function Placeholder(id: string): string { MARK + TrimSpace(id) }

  // ---------------------------------------------------------------- allocating IDs

  /** The files so far and the number of invented names. */
  datatype State = State(media: seq<Media>, counter: nat)

  function IDs(media: seq<Media>): set<string> { set i | 0 <= i < |media| :: media[i].id }

  function Find(media: seq<Media>, url: string): (r: Option<nat>)
    ensures r.Some? ==> r.value < |media| && media[r.value].url == url
    ensures r.None? ==> forall i :: 0 <= i < |media| ==> media[i].url != url
  {
    if media == [] then None
    else match Find(media[..|media| - 1], url)
      case Some(k) => Some(k)
      case None => if media[|media| - 1].url == url then Some(|media| - 1) else None
  }

  ghost function NotShorter(used: set<string>, id: string): set<string> {
    set x | x in used && |x| >= |id|
  }

  lemma LongerShrinks(used: set<string>, id: string, longer: string)
    requires id in used && |id| < |longer|
    ensures NotShorter(used, longer) < NotShorter(used, id)
  {
    assert id in NotShorter(used, id) && id !in NotShorter(used, longer);
  }

  /** Numbers are appended to the whole ID until nobody has it. Every round makes the ID longer. */
  function FreeID(used: set<string>, id: string, counter: nat): (r: (string, nat))
    ensures r.0 !in used && r.1 >= counter && id <= r.0
    decreases NotShorter(used, id)
  {
    if id !in used then (id, counter)
    else
      var longer := id + "-" + Decimal(counter + 1);
      LongerShrinks(used, id, longer);
      FreeID(used, longer, counter + 1)
  }

  function BaseID(postID: string, counter: nat): (string, nat) {
    if TrimSpace(postID) == "" then ("wxr-extra-" + Decimal(counter + 1), counter + 1)
    else ("wxr-" + TrimSpace(postID), counter)
  }

  function NewID(s: State, postID: string): (string, nat) {
    var base := BaseID(postID, s.counter);
    FreeID(IDs(s.media), base.0, base.1)
  }

  /** `addMedia`: the state afterwards and the index of the file, if the URL is not blank. */
  function Added(s: State, url: string, postID: string): (r: (State, Option<nat>))
    ensures r.1.Some? ==> r.1.value < |r.0.media|
    ensures r.1.Some? <==> TrimSpace(url) != ""
  {
    var u := TrimSpace(url);
    if u == "" then (s, None)
    else if Find(s.media, u).Some? then (s, Find(s.media, u))
    else
      var id := NewID(s, postID);
      (State(s.media + [Media(id.0, u)], id.1), Some(|s.media|))
  }

  /** One file per URL, one ID per file. */
  ghost predicate Consistent(media: seq<Media>) {
    && (forall i, j :: 0 <= i < j < |media| ==> media[i].id != media[j].id && media[i].url != media[j].url)
    && (forall i :: 0 <= i < |media| ==> Trimmed(media[i].id) && media[i].id != "")
    && (forall i :: 0 <= i < |media| ==> Trimmed(media[i].url) && media[i].url != "")
  }

  lemma EndsWell(s: string, tail: string)
    requires s != "" && !IsSpace(s[0]) && tail != "" && !IsSpace(tail[|tail| - 1])
    ensures Trimmed(s + tail)
  {
    assert (s + tail)[|s + tail| - 1] == tail[|tail| - 1];
  }

  lemma DigitsAreNoSpace(n: nat)
    ensures var d := Decimal(n); !IsSpace(d[|d| - 1])
  {
  }

  lemma {:induction false} FreeIDTrimmed(used: set<string>, id: string, counter: nat)
    requires Trimmed(id) && id != ""
    ensures Trimmed(FreeID(used, id, counter).0)
    decreases NotShorter(used, id)
  {
    hide Trimmed, IsSpace;
    if id in used {
      var longer := id + "-" + Decimal(counter + 1);
      LongerShrinks(used, id, longer);
      assert Trimmed(longer) by { NumberedTrimmed(id, counter + 1); }
      FreeIDTrimmed(used, longer, counter + 1);
    }
  }

  lemma NumberedTrimmed(id: string, n: nat)
    requires Trimmed(id) && id != ""
    ensures Trimmed(id + "-" + Decimal(n))
  {
    DigitsAreNoSpace(n);
    EndsWell(id + "-", Decimal(n));
  }

  lemma BaseIDTrimmed(postID: string, counter: nat)
    ensures Trimmed(BaseID(postID, counter).0) && BaseID(postID, counter).0 != ""
  {
    if TrimSpace(postID) == "" {
      DigitsAreNoSpace(counter + 1);
      EndsWell("wxr-extra-", Decimal(counter + 1));
    } else {
      EndsWell("wxr-", TrimSpace(postID));
    }
  }

  lemma AddedConsistent(s: State, url: string, postID: string)
    requires Consistent(s.media)
    ensures var r := Added(s, url, postID);
            && Consistent(r.0.media)
            && s.media <= r.0.media
            && (r.1.Some? ==> r.0.media[r.1.value].url == TrimSpace(url))
  {
    hide BaseID, FreeID, Trimmed;
    var base := BaseID(postID, s.counter);
    BaseIDTrimmed(postID, s.counter);
    FreeIDTrimmed(IDs(s.media), base.0, base.1);
    forall i | 0 <= i < |s.media| ensures s.media[i].id != FreeID(IDs(s.media), base.0, base.1).0 {
      assert s.media[i].id in IDs(s.media);
    }
  }

  // ---------------------------------------------------------------- bodies

  datatype Fragment =
    | Words(text: string)
    | Figure(src: string, alt: string, caption: string, anchor: string)
    | Link(href: string, text: string)

  /** A body with the places of the placeholders left open; hole `j` is for file `slots[j]`. */
  datatype Shape = Shape(lits: seq<string>, slots: seq<nat>) {
    predicate For(n: nat) {
      |lits| == |slots| + 1 && forall j :: 0 <= j < |slots| ==> slots[j] < n
    }

    function AddText(text: string): Shape
      requires lits != []
    {
      Shape(lits[|lits| - 1 := lits[|lits| - 1] + text], slots)
    }

    function AddHole(before: string, slot: nat, after: string): Shape
      requires lits != []
    {
      Shape(AddText(before).lits + [after], slots + [slot])
    }
  }

  const EMPTY := Shape([""], [])

  function Texts(media: seq<Media>): (r: seq<string>)
    ensures |r| == |media| && forall i :: 0 <= i < |r| ==> r[i] == Placeholder(media[i].id)
  {
    seq(|media|, i requires 0 <= i < |media| => Placeholder(media[i].id))
  }

  /** The body with `texts` in its holes. */
  function Body(shape: Shape, texts: seq<string>): string
    requires shape.For(|texts|)
  {
    Fill(shape.lits, Chosen(shape.slots, texts))
  }

  function Fallback(text: string, other: string): string {
    if TrimSpace(text) != "" then TrimSpace(text) else TrimSpace(other)
  }

  function EscapeAlt(text: string): string {
    ReplaceAll(ReplaceAll(text, "\\", "\\\\"), "]", "\\]")
  }

  function EscapeCaption(text: string): string {
    ReplaceAll(ReplaceAll(ReplaceAll(text, "\\", "\\\\"), "{", ""), "}", "")
  }

  function FigureStart(alt: string): string { "\\begin{figure}\n![" + EscapeAlt(alt) + "](" }

  function FigureEnd(caption: string, anchor: string): string {
    ")" + "\n\\caption{" + EscapeCaption(caption) + "}\n\\label{fig:" + anchor + "}\n\\end{figure}"
  }

  function LinkStart(text: string, href: string): string { "[" + EscapeLinkText(Fallback(text, href)) + "](" }

  /** Whether an address lies under the upload directory of WordPress. */
  type UploadTest = string -> bool

  /** One fragment: new files may be found on the way. */
  function Visit(s: State, shape: Shape, f: Fragment, upload: UploadTest): (State, Shape)
    requires shape.lits != []
  {
    match f
    case Words(text) => (s, shape.AddText(text))
    case Figure(src, alt, caption, anchor) =>
      var shownAlt := OrElse(TrimSpace(alt), "Image");
      if TrimSpace(src) == "" then (s, shape)
      else
        var file := Added(s, TrimSpace(src), "");
        (file.0, shape.AddHole(FigureStart(shownAlt), file.1.value, FigureEnd(OrElse(caption, shownAlt), anchor)))
    case Link(href, text) =>
      var h := TrimSpace(href);
      if h == "" then (s, shape.AddText(text))
      else if Find(s.media, h).None? && !upload(h) then (s, shape.AddText(LinkStart(text, h) + h + ")"))
      else
        var file := Added(s, h, "");
        (file.0, shape.AddHole(LinkStart(text, h), file.1.value, ")"))
  }

  function VisitAll(s: State, fragments: seq<Fragment>, upload: UploadTest): (r: (State, Shape))
    ensures r.1.lits != []
  {
    if fragments == [] then (s, EMPTY)
    else
      var before := VisitAll(s, fragments[..|fragments| - 1], upload);
      Visit(before.0, before.1, fragments[|fragments| - 1], upload)
  }

  /** Every hole of a body belongs to a file of the batch, and stands between parentheses. */
  ghost predicate Parenthesised(shape: Shape) {
    && (forall j :: 0 <= j < |shape.lits| - 1 ==> shape.lits[j] != "" && shape.lits[j][|shape.lits[j]| - 1] == '(')
    && (forall j :: 1 <= j < |shape.lits| ==> shape.lits[j] != "" && shape.lits[j][0] == ')')
  }

  lemma TextKeepsShape(shape: Shape, n: nat, text: string)
    requires shape.For(n) && Parenthesised(shape)
    ensures shape.AddText(text).For(n) && Parenthesised(shape.AddText(text))
  {
  }

  lemma HoleKeepsShape(shape: Shape, n: nat, before: string, slot: nat, after: string)
    requires shape.For(n) && Parenthesised(shape) && slot < n
    requires before != "" && before[|before| - 1] == '(' && after != "" && after[0] == ')'
    ensures shape.AddHole(before, slot, after).For(n) && Parenthesised(shape.AddHole(before, slot, after))
  {
    TextKeepsShape(shape, n, before);
    var first := shape.AddText(before);
    assert first.lits[|first.lits| - 1] == shape.lits[|shape.lits| - 1] + before;
  }

  lemma Brackets(alt: string, caption: string, anchor: string, text: string, href: string)
    ensures FigureStart(alt) != "" && FigureStart(alt)[|FigureStart(alt)| - 1] == '('
    ensures FigureEnd(caption, anchor) != "" && FigureEnd(caption, anchor)[0] == ')'
    ensures LinkStart(text, href) != "" && LinkStart(text, href)[|LinkStart(text, href)| - 1] == '('
  {
    hide EscapeAlt, EscapeCaption, EscapeLinkText, Fallback;
  }

  lemma ForMore(shape: Shape, n: nat, m: nat)
    requires shape.For(n) && n <= m
    ensures shape.For(m)
  {
  }

  lemma VisitKeeps(s: State, shape: Shape, f: Fragment, upload: UploadTest)
    requires Consistent(s.media) && shape.For(|s.media|) && Parenthesised(shape)
    ensures var r := Visit(s, shape, f, upload);
            && Consistent(r.0.media)
            && s.media <= r.0.media
            && r.1.For(|r.0.media|)
            && Parenthesised(r.1)
  {
    hide Added, Consistent, Parenthesised, FigureStart, FigureEnd, LinkStart, Find;
    match f {
      case Words(text) =>
        TextKeepsShape(shape, |s.media|, text);
      case Figure(src, alt, caption, anchor) =>
        var shownAlt := OrElse(TrimSpace(alt), "Image");
        AddedConsistent(s, TrimSpace(src), "");
        Brackets(shownAlt, OrElse(caption, shownAlt), anchor, "", "");
        var file := Added(s, TrimSpace(src), "");
        if file.1.Some? {
          ForMore(shape, |s.media|, |file.0.media|);
          HoleKeepsShape(shape, |file.0.media|, FigureStart(shownAlt), file.1.value, FigureEnd(OrElse(caption, shownAlt), anchor));
        }
      case Link(href, text) =>
        var h := TrimSpace(href);
        AddedConsistent(s, h, "");
        Brackets("", "", "", text, h);
        var file := Added(s, h, "");
        TextKeepsShape(shape, |s.media|, text);
        TextKeepsShape(shape, |s.media|, LinkStart(text, h) + h + ")");
        if file.1.Some? {
          ForMore(shape, |s.media|, |file.0.media|);
          HoleKeepsShape(shape, |file.0.media|, LinkStart(text, h), file.1.value, ")");
        }
    }
  }

  /** Files found later do not change a body. */
  lemma LaterFiles(shape: Shape, media: seq<Media>, more: seq<Media>)
    requires media <= more && shape.For(|media|)
    ensures shape.For(|more|) && Body(shape, Texts(more)) == Body(shape, Texts(media))
  {
    assert Chosen(shape.slots, Texts(more)) == Chosen(shape.slots, Texts(media));
  }

  lemma BodyAddText(shape: Shape, texts: seq<string>, text: string)
    requires shape.For(|texts|)
    ensures shape.AddText(text).For(|texts|) && Body(shape.AddText(text), texts) == Body(shape, texts) + text
  {
    FillExtendLast(shape.lits, Chosen(shape.slots, texts), text);
  }

  lemma BodyAddHole(shape: Shape, texts: seq<string>, before: string, slot: nat, after: string)
    requires shape.For(|texts|) && slot < |texts|
    ensures var r := shape.AddHole(before, slot, after);
            r.For(|texts|) && Body(r, texts) == Body(shape, texts) + before + texts[slot] + after
  {
    hide Fill;
    var first := shape.AddText(before);
    BodyAddText(shape, texts, before);
    var fs := Chosen(shape.slots, texts);
    FillAddHole(first.lits, fs, texts[slot]);
    assert Chosen(shape.slots + [slot], texts) == fs + [texts[slot]];
    var open := Shape(first.lits + [""], shape.slots + [slot]);
    FillExtendLast(open.lits, fs + [texts[slot]], after);
    assert "" + after == after;
    assert open.lits[|open.lits| - 1 := after] == first.lits + [after];
  }

  // ---------------------------------------------------------------- the builder

  /** The placeholders by URL. */
  ghost predicate Indexed(media: seq<Media>, urlToMedia: map<string, string>) {
    && (forall i :: 0 <= i < |media| ==> media[i].url in urlToMedia && urlToMedia[media[i].url] == Placeholder(media[i].id))
    && (forall u :: u in urlToMedia ==> Find(media, u).Some?)
  }

  lemma IndexedAppend(media: seq<Media>, urlToMedia: map<string, string>, m: Media)
    requires Indexed(media, urlToMedia) && Find(media, m.url).None?
    ensures Indexed(media + [m], urlToMedia[m.url := Placeholder(m.id)])
  {
    hide Placeholder;
    var all := media + [m];
    forall u | u in urlToMedia[m.url := Placeholder(m.id)] ensures Find(all, u).Some? {
      if Find(media, u).Some? {
        assert all[Find(media, u).value].url == u;
      } else {
        assert all[|media|].url == u;
      }
    }
  }

  lemma IndexedFinds(media: seq<Media>, urlToMedia: map<string, string>, u: string)
    requires Indexed(media, urlToMedia)
    ensures Find(media, u).Some? <==> u in urlToMedia && urlToMedia[u] != ""
    ensures Find(media, u).Some? ==> urlToMedia[u] == Placeholder(media[Find(media, u).value].id)
  {
    if Find(media, u).Some? { assert media[Find(media, u).value].url == u; }
  }

  lemma BareID(postID: string)
    ensures "wxr-" + postID == "wxr-" <==> postID == ""
  {
    assert ("wxr-" + postID)[4..] == postID;
  }

  class Builder {
    var media: seq<Media>
    var urlToMedia: map<string, string>
    var mediaByID: set<string>
    var extraCounter: nat

    ghost predicate Valid()
      reads this
    {
      && Consistent(media)
      && mediaByID == IDs(media)
      && Indexed(media, urlToMedia)
    }

    ghost function View(): State
      reads this
    {
      State(media, extraCounter)
    }

    constructor ()
      ensures Valid() && View() == State([], 0)
    {
      media, urlToMedia, mediaByID, extraCounter := [], map[], {}, 0;
    }

    /** The loop that looks for an ID nobody has. */
    method FindID(postID: string) returns (id: string)
      requires Valid()
      modifies this`extraCounter
      ensures (id, extraCounter) == NewID(old(View()), postID)
    {
      hide TrimSpace, Decimal, Consistent, Indexed, IDs;
      BareID(TrimSpace(postID));
      id := "wxr-" + TrimSpace(postID);
      if id == "wxr-" {
        extraCounter := extraCounter + 1;
        id := "wxr-extra-" + Decimal(extraCounter);
      }
      assert (id, extraCounter) == BaseID(postID, old(extraCounter));
      while id in mediaByID
        invariant FreeID(mediaByID, id, extraCounter) == NewID(old(View()), postID)
        decreases NotShorter(mediaByID, id)
      {
        LongerShrinks(mediaByID, id, id + "-" + Decimal(extraCounter + 1));
        extraCounter := extraCounter + 1;
        id := id + "-" + Decimal(extraCounter);
      }
    }

    method AddMedia(sourceURL: string, postID: string) returns (placeholder: string)
      requires Valid()
      modifies this
      ensures Valid() && View() == Added(old(View()), sourceURL, postID).0
      ensures match Added(old(View()), sourceURL, postID).1
        case None => placeholder == ""
        case Some(k) => placeholder == Placeholder(media[k].id)
    {
      hide NewID, Consistent, IDs, Indexed, Find, Placeholder;
      var u := TrimSpace(sourceURL);
      AddedConsistent(View(), sourceURL, postID);
      if u == "" {
        return "";
      }
      IndexedFinds(media, urlToMedia, u);
      if u in urlToMedia && urlToMedia[u] != "" {
        return urlToMedia[u];
      }
      ghost var before := media;
      var id := FindID(postID);
      mediaByID := mediaByID + {id};
      placeholder := Placeholder(id);
      media := media + [Media(id, u)];
      IndexedAppend(before, urlToMedia, Media(id, u));
      urlToMedia := urlToMedia[u := placeholder];
      IDsAppend(before, Media(id, u));
    }

    method MediaPlaceholder(sourceURL: string) returns (placeholder: string)
      requires Valid()
      modifies this
      ensures Valid() && View() == Added(old(View()), sourceURL, "").0
      ensures match Added(old(View()), sourceURL, "").1
        case None => placeholder == ""
        case Some(k) => placeholder == Placeholder(media[k].id)
    {
      IndexedFinds(media, urlToMedia, sourceURL);
      if sourceURL in urlToMedia && urlToMedia[sourceURL] != "" {
        FoundIsTrimmed(media, sourceURL);
        return urlToMedia[sourceURL];
      }
      placeholder := AddMedia(sourceURL, "");
    }

    /** The text of one fragment, appended to a body. */
    method Render(out: string, f: Fragment, upload: UploadTest, ghost shape: Shape) returns (r: string)
      requires Valid() && shape.For(|media|) && Parenthesised(shape) && out == Body(shape, Texts(media))
      modifies this
      ensures Valid()
      ensures (View(), Visit(old(View()), shape, f, upload).1) == Visit(old(View()), shape, f, upload)
      ensures Visit(old(View()), shape, f, upload).1.For(|media|) && Parenthesised(Visit(old(View()), shape, f, upload).1)
      ensures old(media) <= media
      ensures r == Body(Visit(old(View()), shape, f, upload).1, Texts(media))
    {
      hide Body, FigureStart, FigureEnd, LinkStart, Added, Parenthesised, Consistent, IDs, Placeholder;
      VisitKeeps(View(), shape, f, upload);
      match f {
        case Words(text) =>
          BodyAddText(shape, Texts(media), text);
          return out + text;
        case Figure(src, alt, caption, anchor) =>
          var shownAlt := OrElse(TrimSpace(alt), "Image");
          if TrimSpace(src) == "" {
            return out;
          }
          ghost var file := Added(View(), TrimSpace(src), "");
          ghost var before := media;
          AddedConsistent(View(), TrimSpace(src), "");
          var placeholder := MediaPlaceholder(TrimSpace(src));
          LaterFiles(shape, before, media);
          BodyAddHole(shape, Texts(media), FigureStart(shownAlt), file.1.value, FigureEnd(OrElse(caption, shownAlt), anchor));
          return out + FigureStart(shownAlt) + placeholder + FigureEnd(OrElse(caption, shownAlt), anchor);
        case Link(href, text) =>
          var h := TrimSpace(href);
          if h == "" {
            BodyAddText(shape, Texts(media), text);
            return out + text;
          }
          IndexedFinds(media, urlToMedia, h);
          if !(h in urlToMedia && urlToMedia[h] != "") && !upload(h) {
            BodyAddText(shape, Texts(media), LinkStart(text, h) + h + ")");
            return out + (LinkStart(text, h) + h + ")");
          }
          ghost var file := Added(View(), h, "");
          ghost var before := media;
          AddedConsistent(View(), h, "");
          var placeholder := MediaPlaceholder(h);
          LaterFiles(shape, before, media);
          BodyAddHole(shape, Texts(media), LinkStart(text, h), file.1.value, ")");
          return out + LinkStart(text, h) + placeholder + ")";
      }
    }

    method Markdown(fragments: seq<Fragment>, upload: UploadTest) returns (body: string, ghost shape: Shape)
      requires Valid()
      modifies this
      ensures Valid() && (View(), shape) == VisitAll(old(View()), fragments, upload)
      ensures shape.For(|media|) && Parenthesised(shape) && old(media) <= media
      ensures body == Body(shape, Texts(media))
    {
      hide Visit, Body, Parenthesised, Consistent, IDs;
      EmptyBody(Texts(media));
      body, shape := "", EMPTY;
      for i := 0 to |fragments|
        invariant Valid() && (View(), shape) == VisitAll(old(View()), fragments[..i], upload)
        invariant shape.For(|media|) && Parenthesised(shape) && old(media) <= media
        invariant body == Body(shape, Texts(media))
      {
        assert fragments[..i + 1][..i] == fragments[..i];
        ghost var next := Visit(View(), shape, fragments[i], upload).1;
        body := Render(body, fragments[i], upload, shape);
        shape := next;
      }
      assert fragments[..|fragments|] == fragments;
    }
  }

  lemma EmptyBody(texts: seq<string>)
    ensures EMPTY.For(|texts|) && Parenthesised(EMPTY) && Body(EMPTY, texts) == ""
  {
  }

  lemma IDsAppend(media: seq<Media>, m: Media)
    ensures IDs(media + [m]) == IDs(media) + {m.id}
  {
    var all := media + [m];
    assert all[|media|].id == m.id;
    forall i | 0 <= i < |media| ensures media[i].id in IDs(all) {
      assert all[i] == media[i];
    }
  }

  lemma FoundIsTrimmed(media: seq<Media>, url: string)
    requires Consistent(media) && Find(media, url).Some?
    ensures TrimSpace(url) == url && url != ""
  {
    assert Trimmed(media[Find(media, url).value].url);
  }
}
