/** From the items of an export to a batch, and from a batch to saved contents. */
module ImportBatch {
  import opened Text
  import opened Substitution
  import opened Importer

  datatype Item = Item(postType: string, status: string, title: string, postID: string, attachmentURL: string, content: seq<Fragment>)

  datatype Draft = Draft(title: string, draft: bool, toc: bool, body: string)

  datatype Batch = Batch(posts: seq<Draft>, pages: seq<Draft>, media: seq<Media>, skipped: seq<string>)

  // ---------------------------------------------------------------- building the batch

  /** The attachments are registered first, so they keep their own post IDs. */
  function Attachments(items: seq<Item>): State {
    if items == [] then State([], 0)
    else
      var before, item := Attachments(items[..|items| - 1]), items[|items| - 1];
      if item.postType == "attachment" && TrimSpace(item.attachmentURL) != ""
      then Added(before, item.attachmentURL, item.postID).0
      else before
  }

  predicate Wanted(item: Item, kind: string) { item.postType == kind && item.status != "trash" }

  predicate IsContent(item: Item) { item.postType == "post" || item.postType == "page" }

  function Selected(items: seq<Item>, kind: string): seq<Item> {
    if items == [] then []
    else Selected(items[..|items| - 1], kind) + (if Wanted(items[|items| - 1], kind) then [items[|items| - 1]] else [])
  }

  function After(s: State, items: seq<Item>, upload: UploadTest): State {
    if items == [] then s
    else
      var before, item := After(s, items[..|items| - 1], upload), items[|items| - 1];
      if IsContent(item) && item.status != "trash" then VisitAll(before, item.content, upload).0 else before
  }

  /** The bodies of one kind of content, with the holes for the files left open. */
  function Shapes(s: State, items: seq<Item>, kind: string, upload: UploadTest): (shapes: seq<Shape>)
    ensures |shapes| == |Selected(items, kind)|
  {
    if items == [] then []
    else
      var init, item := items[..|items| - 1], items[|items| - 1];
      Shapes(s, init, kind, upload)
      + (if Wanted(item, kind) then [VisitAll(After(s, init, upload), item.content, upload).1] else [])
  }

  predicate IgnoredType(postType: string) {
    || postType == "attachment" || postType == "nav_menu_item" || postType == "wp_template"
    || postType == "wp_template_part" || postType == "wp_navigation" || postType == "wp_global_styles"
    || postType == "custom_css"
  }

  function SkippedItem(item: Item): seq<string> {
    var name := Fallback(item.title, item.postID);
    if IsContent(item) then
      if item.status == "trash" then [item.postType + ": " + name] else []
    else if IgnoredType(item.postType) then []
    else [Fallback(item.postType, "unknown") + ": " + name]
  }

  function Skipped(items: seq<Item>): seq<string> {
    if items == [] then [] else Skipped(items[..|items| - 1]) + SkippedItem(items[|items| - 1])
  }

  /** Rows of an export that are no contents of their own. */
  function NotContents(items: seq<Item>): nat {
    if items == [] then 0
    else
      NotContents(items[..|items| - 1])
      + (if items[|items| - 1].postType in {"attachment", "nav_menu_item", "wp_template", "wp_template_part", "wp_navigation",
                                            "wp_global_styles", "custom_css"} then 1 else 0)
  }

  /** No row vanishes: each is a post, a page, reported as skipped, or no content. */
  lemma {:induction false} RowsAccountedFor(items: seq<Item>)
    ensures |Selected(items, "post")| + |Selected(items, "page")| + |Skipped(items)| + NotContents(items) == |items|
  {
    hide Fallback;
    if items != [] {
      var last := items[|items| - 1];
      RowsAccountedFor(items[..|items| - 1]);
      assert last.postType == "post" ==> last.postType != "page";
      ContentIsNotIgnored(last.postType);
    }
  }

  lemma ContentIsNotIgnored(postType: string)
    ensures postType == "post" || postType == "page" ==> !IgnoredType(postType)
  {
  }

  predicate DraftOf(item: Item, shape: Shape, texts: seq<string>, draft: Draft)
    requires shape.For(|texts|)
  {
    draft == Draft(Fallback(item.title, "Untitled"), item.status != "publish", item.postType == "post", Body(shape, texts))
  }

  ghost predicate Drafts(items: seq<Item>, shapes: seq<Shape>, media: seq<Media>, drafts: seq<Draft>) {
    && |drafts| == |shapes| == |items|
    && forall i :: 0 <= i < |drafts| ==>
      && shapes[i].For(|media|)
      && Parenthesised(shapes[i])
      && DraftOf(items[i], shapes[i], Texts(media), drafts[i])
  }

  lemma DraftsLater(items: seq<Item>, shapes: seq<Shape>, media: seq<Media>, more: seq<Media>, drafts: seq<Draft>)
    requires Drafts(items, shapes, media, drafts) && media <= more
    ensures Drafts(items, shapes, more, drafts)
  {
    hide Body, Parenthesised;
    forall i | 0 <= i < |drafts|
      ensures shapes[i].For(|more|) && DraftOf(items[i], shapes[i], Texts(more), drafts[i])
    {
      LaterFiles(shapes[i], media, more);
    }
  }

  /** The first `n` items have been dealt with. */
  ghost predicate Converted(
    s: State, items: seq<Item>, n: nat, upload: UploadTest, state: State, posts: seq<Draft>, pages: seq<Draft>, skipped: seq<string>)
    requires n <= |items|
  {
    && state == After(s, items[..n], upload)
    && Drafts(Selected(items[..n], "post"), Shapes(s, items[..n], "post", upload), state.media, posts)
    && Drafts(Selected(items[..n], "page"), Shapes(s, items[..n], "page", upload), state.media, pages)
    && skipped == Skipped(items[..n])
  }

  method RegisterAttachments(builder: Builder, items: seq<Item>)
    requires builder.Valid() && builder.View() == State([], 0)
    modifies builder
    ensures builder.Valid() && builder.View() == Attachments(items)
  {
    hide Added;
    for i := 0 to |items|
      invariant builder.Valid() && builder.View() == Attachments(items[..i])
    {
      assert items[..i + 1][..i] == items[..i];
      if items[i].postType == "attachment" && TrimSpace(items[i].attachmentURL) != "" {
        var _ := builder.AddMedia(items[i].attachmentURL, items[i].postID);
      }
    }
    assert items[..|items|] == items;
  }

  /** The attachments of the export come first, then the files that bodies mention; the bodies hold placeholders. */
  ghost predicate BatchOf(items: seq<Item>, upload: UploadTest, batch: Batch) {
    var s := Attachments(items);
    && batch.media == After(s, items, upload).media
    && Consistent(batch.media)
    && Drafts(Selected(items, "post"), Shapes(s, items, "post", upload), batch.media, batch.posts)
    && Drafts(Selected(items, "page"), Shapes(s, items, "page", upload), batch.media, batch.pages)
    && batch.skipped == Skipped(items)
  }

  method BuildImportBatch(items: seq<Item>, upload: UploadTest) returns (batch: Batch)
    ensures BatchOf(items, upload, batch)
  {
    hide Converted, Consistent, Added, VisitAll, DraftOf, Parenthesised, Body, Indexed, IDs;
    var builder := new Builder();
    RegisterAttachments(builder, items);
    ghost var s := builder.View();
    var posts, pages, skipped := [], [], [];
    NothingConverted(s, items, upload);
    for i := 0 to |items|
      invariant builder.Valid() && fresh(builder)
      invariant Converted(s, items, i, upload, builder.View(), posts, pages, skipped)
    {
      var item := items[i];
      if item.postType == "post" || item.postType == "page" {
        if item.status == "trash" {
          ConvertedSkip(s, items, i, upload, builder.View(), posts, pages, skipped);
          skipped := skipped + [item.postType + ": " + Fallback(item.title, item.postID)];
          continue;
        }
        ghost var before := builder.View();
        var body, shape := builder.Markdown(item.content, upload);
        var draft := Draft(Fallback(item.title, "Untitled"), item.status != "publish", item.postType == "post", body);
        assert DraftOf(item, shape, Texts(builder.media), draft) by { DraftOfBody(item, shape, Texts(builder.media), body); }
        ConvertedDraft(s, items, i, upload, before, builder.View(), shape, posts, pages, skipped, draft);
        if item.postType == "post" {
          posts := posts + [draft];
        } else {
          pages := pages + [draft];
        }
      } else {
        ConvertedSkip(s, items, i, upload, builder.View(), posts, pages, skipped);
        assert skipped + [] == skipped;
        if !IgnoredType(item.postType) {
          skipped := skipped + [Fallback(item.postType, "unknown") + ": " + Fallback(item.title, item.postID)];
        }
      }
    }
    batch := Batch(posts, pages, builder.media, skipped);
    AllConverted(s, items, upload, builder.View(), posts, pages, skipped);
  }

  lemma DraftOfBody(item: Item, shape: Shape, texts: seq<string>, body: string)
    requires shape.For(|texts|) && body == Body(shape, texts)
    ensures DraftOf(item, shape, texts,
                    Draft(Fallback(item.title, "Untitled"), item.status != "publish", item.postType == "post", body))
  {
  }

  lemma NothingConverted(s: State, items: seq<Item>, upload: UploadTest)
    ensures Converted(s, items, 0, upload, s, [], [], [])
  {
  }

  lemma AllConverted(
    s: State, items: seq<Item>, upload: UploadTest, state: State, posts: seq<Draft>, pages: seq<Draft>, skipped: seq<string>)
    requires Converted(s, items, |items|, upload, state, posts, pages, skipped)
    ensures && state == After(s, items, upload)
            && Drafts(Selected(items, "post"), Shapes(s, items, "post", upload), state.media, posts)
            && Drafts(Selected(items, "page"), Shapes(s, items, "page", upload), state.media, pages)
            && skipped == Skipped(items)
  {
    assert items[..|items|] == items;
  }

  lemma ConvertedSkip(
    s: State, items: seq<Item>, i: nat, upload: UploadTest, state: State, posts: seq<Draft>, pages: seq<Draft>, skipped: seq<string>)
    requires i < |items| && !(IsContent(items[i]) && items[i].status != "trash")
    requires Converted(s, items, i, upload, state, posts, pages, skipped)
    ensures Converted(s, items, i + 1, upload, state, posts, pages, skipped + SkippedItem(items[i]))
  {
    hide Drafts, VisitAll, SkippedItem;
    NoNewDraft(s, items, i, upload);
    OneMoreSkipped(items, i);
  }

  lemma ConvertedDraft(
    s: State, items: seq<Item>, i: nat, upload: UploadTest, before: State, state: State, shape: Shape,
    posts: seq<Draft>, pages: seq<Draft>, skipped: seq<string>, draft: Draft)
    requires i < |items| && IsContent(items[i]) && items[i].status != "trash"
    requires Converted(s, items, i, upload, before, posts, pages, skipped)
    requires (state, shape) == VisitAll(before, items[i].content, upload) && before.media <= state.media
    requires shape.For(|state.media|) && Parenthesised(shape) && DraftOf(items[i], shape, Texts(state.media), draft)
    ensures Converted(s, items, i + 1, upload, state,
                      if items[i].postType == "post" then posts + [draft] else posts,
                      if items[i].postType == "post" then pages else pages + [draft], skipped)
  {
    hide Drafts, VisitAll, DraftOf, Parenthesised, Selected, Shapes, After;
    DraftsLater(Selected(items[..i], "post"), Shapes(s, items[..i], "post", upload), before.media, state.media, posts);
    DraftsLater(Selected(items[..i], "page"), Shapes(s, items[..i], "page", upload), before.media, state.media, pages);
    OneMoreDraft(s, items, i, upload, shape, state.media, posts, pages, draft);
    OneMoreSkipped(items, i);
  }

  lemma OneMoreSkipped(items: seq<Item>, i: nat)
    requires i < |items|
    ensures Skipped(items[..i + 1]) == Skipped(items[..i]) + SkippedItem(items[i])
  {
    assert items[..i + 1][..i] == items[..i];
  }

  lemma NoNewDraft(s: State, items: seq<Item>, i: nat, upload: UploadTest)
    requires i < |items| && !(IsContent(items[i]) && items[i].status != "trash")
    ensures After(s, items[..i + 1], upload) == After(s, items[..i], upload)
    ensures forall kind :: kind == "post" || kind == "page" ==>
      && Selected(items[..i + 1], kind) == Selected(items[..i], kind)
      && Shapes(s, items[..i + 1], kind, upload) == Shapes(s, items[..i], kind, upload)
  {
    assert items[..i + 1][..i] == items[..i];
  }

  lemma OneMoreDraft(
    s: State, items: seq<Item>, i: nat, upload: UploadTest, shape: Shape, media: seq<Media>,
    posts: seq<Draft>, pages: seq<Draft>, draft: Draft)
    requires i < |items| && IsContent(items[i]) && items[i].status != "trash"
    requires shape == VisitAll(After(s, items[..i], upload), items[i].content, upload).1
    requires shape.For(|media|) && Parenthesised(shape) && DraftOf(items[i], shape, Texts(media), draft)
    requires Drafts(Selected(items[..i], "post"), Shapes(s, items[..i], "post", upload), media, posts)
    requires Drafts(Selected(items[..i], "page"), Shapes(s, items[..i], "page", upload), media, pages)
    ensures After(s, items[..i + 1], upload) == VisitAll(After(s, items[..i], upload), items[i].content, upload).0
    ensures Drafts(Selected(items[..i + 1], "post"), Shapes(s, items[..i + 1], "post", upload), media,
                   if items[i].postType == "post" then posts + [draft] else posts)
    ensures Drafts(Selected(items[..i + 1], "page"), Shapes(s, items[..i + 1], "page", upload), media,
                   if items[i].postType == "post" then pages else pages + [draft])
  {
    hide VisitAll, Parenthesised, DraftOf;
    assert items[..i + 1][..i] == items[..i];
    var kind := items[i].postType;
    DraftsAppend(Selected(items[..i], kind), Shapes(s, items[..i], kind, upload), media,
                 if kind == "post" then posts else pages, items[i], shape, draft);
  }

  lemma DraftsAppend(
    items: seq<Item>, shapes: seq<Shape>, media: seq<Media>, drafts: seq<Draft>, item: Item, shape: Shape, draft: Draft)
    requires Drafts(items, shapes, media, drafts)
    requires shape.For(|media|) && Parenthesised(shape) && DraftOf(item, shape, Texts(media), draft)
    ensures Drafts(items + [item], shapes + [shape], media, drafts + [draft])
  {
    hide Parenthesised, DraftOf;
  }

  // ---------------------------------------------------------------- putting the saved paths in

  ghost predicate IDsPrefixFree(media: seq<Media>) {
    forall i, j :: 0 <= i < |media| && 0 <= j < |media| && i != j ==> !(media[i].id <= media[j].id)
  }

  ghost predicate AllFree(texts: seq<string>) {
    forall i :: 0 <= i < |texts| ==> Free(texts[i], MARK)
  }

  ghost predicate IDsFree(media: seq<Media>) {
    forall i :: 0 <= i < |media| ==> Free(media[i].id, MARK)
  }

  lemma MarkLetters()
    ensures MARK != "" && MARK[0] == 'p'
    ensures forall i :: 0 <= i < |MARK| ==> MARK[i] != '(' && MARK[i] != ')' && (i > 0 ==> MARK[i] != 'p')
  {
  }

  /** Nothing that lacks the mark can form it together with a closing parenthesis. */
  lemma QuietBeforeParenthesis(a: string, rest: string)
    requires Free(a, MARK) && (rest == "" || rest[0] == ')')
    ensures Quiet(a, rest, MARK)
  {
    MarkLetters();
    var s := a + rest;
    forall i | 0 <= i < |a| ensures !(MARK <= s[i..]) {
      if i + |MARK| <= |a| {
        assert s[i..][..|MARK|] == a[i..][..|MARK|];
      } else if rest != "" {
        assert s[i..][|a| - i] == ')';
      }
    }
  }

  lemma QuietAfterParenthesis(a: string, rest: string)
    requires Free(a, MARK) && a != "" && a[|a| - 1] == '('
    ensures Quiet(a, rest, MARK)
  {
    MarkLetters();
    var s := a + rest;
    forall i | 0 <= i < |a| ensures !(MARK <= s[i..]) {
      if i + |MARK| <= |a| {
        assert s[i..][..|MARK|] == a[i..][..|MARK|];
      } else {
        assert s[i..][|a| - 1 - i] == '(';
      }
    }
  }

  lemma TokenTailFree(id: string)
    requires Free(id, MARK)
    ensures Free((MARK + id)[1..], MARK)
  {
    MarkLetters();
    var tail := (MARK + id)[1..];
    forall i | 0 <= i <= |tail| ensures !(MARK <= tail[i..]) {
      if i < |MARK| - 1 {
        assert tail[i..][0] == MARK[i + 1];
      } else {
        assert tail[i..] == id[i - (|MARK| - 1)..];
      }
    }
  }

  lemma FillStart(lits: seq<string>, fillings: seq<string>)
    requires |lits| == |fillings| + 1 && lits[0] != ""
    ensures Fill(lits, fillings) != "" && Fill(lits, fillings)[0] == lits[0][0]
  {
  }

  lemma {:induction false} BodyAnchored(shape: Shape, toks: seq<string>, vals: seq<string>, done: set<nat>, k: nat)
    requires |toks| == |vals| && shape.For(|toks|) && Parenthesised(shape) && k <= |shape.slots|
    requires AllFree(shape.lits) && AllFree(vals)
    requires forall j :: 0 <= j < |toks| ==> toks[j] != "" && Free(toks[j][1..], MARK)
    ensures Anchored(shape.lits[k..], shape.slots[k..], toks, vals, done, MARK)
    decreases |shape.slots| - k
  {
    hide Free, Quiet, Fillings, Fill;
    var lits, slots := shape.lits[k..], shape.slots[k..];
    if slots == [] {
      QuietBeforeParenthesis(lits[0], "");
    } else {
      BodyAnchored(shape, toks, vals, done, k + 1);
      assert lits[1..] == shape.lits[k + 1..] && slots[1..] == shape.slots[k + 1..];
      FillStart(lits[1..], Fillings(slots[1..], toks, vals, done));
      var rest := Filled(lits[1..], slots[1..], toks, vals, done);
      assert rest != "" && rest[0] == ')';
      var j := slots[0];
      QuietAfterParenthesis(lits[0], (if j in done then vals[j] else toks[j]) + rest);
      QuietBeforeParenthesis(vals[j], rest);
      QuietBeforeParenthesis(toks[j][1..], rest);
    }
  }

  /** What the substitution must promise for any files and paths. */
  lemma PathsArrive(shape: Shape, media: seq<Media>, vals: seq<string>, order: seq<nat>)
    requires Consistent(media) && IDsPrefixFree(media) && IDsFree(media)
    requires |vals| == |media| && AllFree(vals)
    requires shape.For(|media|) && Parenthesised(shape) && AllFree(shape.lits)
    requires IsOrder(order, |media|)
    ensures forall i :: 0 <= i < |media| ==> Texts(media)[i] != ""
    ensures ReplaceInOrder(Body(shape, Texts(media)), Texts(media), vals, order) == Body(shape, vals)
  {
    hide Free, AllFree, Anchored, Parenthesised, Fill;
    var toks := Texts(media);
    forall i | 0 <= i < |toks| ensures toks[i] == MARK + media[i].id && MARK <= toks[i] && Free(toks[i][1..], MARK) {
      TokenTailFree(media[i].id);
    }
    assert PrefixFree(toks) by { TokensPrefixFree(media); }
    forall done: set<nat> ensures Anchored(shape.lits, shape.slots, toks, vals, done, MARK) {
      BodyAnchored(shape, toks, vals, done, 0);
      assert shape.lits[0..] == shape.lits && shape.slots[0..] == shape.slots;
    }
    ReplaceAllTokens(shape.lits, shape.slots, toks, vals, MARK, order);
  }

  lemma TokensPrefixFree(media: seq<Media>)
    requires Consistent(media) && IDsPrefixFree(media)
    ensures PrefixFree(Texts(media))
  {
    var toks := Texts(media);
    forall i, j | 0 <= i < |toks| && 0 <= j < |toks| && i != j ensures !(toks[i] <= toks[j]) {
      PrefixUnderMark(media[i].id, media[j].id);
    }
  }

  lemma PrefixUnderMark(a: string, b: string)
    ensures MARK + a <= MARK + b ==> a <= b
  {
    if MARK + a <= MARK + b {
      assert (MARK + b)[..|MARK + a|][|MARK|..] == b[..|a|];
      assert (MARK + a)[|MARK|..] == a;
    }
  }

  lemma FreeJoin(a: string, rest: string)
    requires Quiet(a, rest, MARK) && Free(rest, MARK)
    ensures Free(a + rest, MARK)
  {
    var s := a + rest;
    forall i | 0 <= i <= |s| ensures !(MARK <= s[i..]) {
      if i >= |a| { assert s[i..] == rest[i - |a|..]; }
    }
  }

  /** No placeholder is left. */
  lemma {:induction false} NoMarkLeft(lits: seq<string>, fillings: seq<string>)
    requires |lits| == |fillings| + 1 && AllFree(lits) && AllFree(fillings)
    requires forall j :: 0 <= j < |lits| - 1 ==> lits[j] != "" && lits[j][|lits[j]| - 1] == '('
    requires forall j :: 1 <= j < |lits| ==> lits[j] != "" && lits[j][0] == ')'
    ensures Free(Fill(lits, fillings), MARK)
  {
    hide Free, Quiet;
    if fillings != [] {
      NoMarkLeft(lits[1..], fillings[1..]);
      var rest := Fill(lits[1..], fillings[1..]);
      FillStart(lits[1..], fillings[1..]);
      QuietBeforeParenthesis(fillings[0], rest);
      FreeJoin(fillings[0], rest);
      QuietAfterParenthesis(lits[0], fillings[0] + rest);
      FreeJoin(lits[0], fillings[0] + rest);
      assert lits[0] + (fillings[0] + rest) == lits[0] + fillings[0] + rest;
    }
  }

  // ---------------------------------------------------------------- IDs that are prefixes of one another

  /** The substitution is right for every clean body, all paths and all orders. */
  ghost predicate SubstitutionWorks(media: seq<Media>)
    requires forall i :: 0 <= i < |media| ==> Texts(media)[i] != ""
  {
    forall shape: Shape, vals: seq<string>, order: seq<nat> ::
      shape.For(|media|) && Parenthesised(shape) && AllFree(shape.lits) && |vals| == |media| && AllFree(vals) && IsOrder(order, |media|)
      ==> ReplaceInOrder(Body(shape, Texts(media)), Texts(media), vals, order) == Body(shape, vals)
  }

  lemma {:induction false} NothingToReplace(text: string, toks: seq<string>, vals: seq<string>, order: seq<nat>)
    requires |toks| == |vals| && (forall i :: 0 <= i < |order| ==> order[i] < |toks|)
    requires forall i :: 0 <= i < |toks| ==> toks[i] != "" && MARK <= toks[i]
    requires Free(text, MARK)
    ensures ReplaceInOrder(text, toks, vals, order) == text
    decreases |order|
  {
    hide Free;
    if order != [] {
      assert Free(text, toks[order[0]]) by { FreeOfLonger(text, MARK, toks[order[0]]); }
      ReplaceNothing(text, toks[order[0]], vals[order[0]]);
      NothingToReplace(text, toks, vals, order[1..]);
    }
  }

  const LINK := "[a]("
  const PATH := "/a"

  /** The body of a single link with the text "a". */
  function OneLink(j: nat): Shape { Shape([LINK, ")"], [j]) }

  lemma OneLinkBody(j: nat, texts: seq<string>)
    requires j < |texts|
    ensures OneLink(j).For(|texts|) && Body(OneLink(j), texts) == LINK + texts[j] + ")"
    ensures Parenthesised(OneLink(j)) && AllFree(OneLink(j).lits)
  {
    var shape := OneLink(j);
    assert Chosen(shape.slots, texts) == [texts[j]];
    assert Fill(shape.lits[1..], [texts[j]][1..]) == ")";
    LinkFree();
  }

  lemma LinkFree()
    ensures Free(LINK, MARK) && Free(")", MARK) && Free(PATH, MARK)
    ensures forall i :: 0 <= i < |PATH| ==> PATH[i] != MARK[0]
  {
    MarkLetters();
    FreeWithoutMark(LINK);
    FreeWithoutMark(")");
    FreeWithoutMark(PATH);
  }

  lemma FreeWithoutMark(s: string)
    requires MARK[0] !in s
    ensures Free(s, MARK)
  {
    forall i | 0 <= i <= |s| ensures !(MARK <= s[i..]) {
      assert i < |s| ==> s[i..][0] == s[i];
    }
  }

  /** If one ID begins with another, some order turns a placeholder into the wrong path. */
  lemma PrefixesBreak(media: seq<Media>, i: nat, j: nat)
    requires Consistent(media) && IDsFree(media)
    requires i < |media| && j < |media| && i != j && media[i].id <= media[j].id
    ensures forall k :: 0 <= k < |media| ==> Texts(media)[k] != ""
    ensures !SubstitutionWorks(media)
  {
    hide Free, Fill, Consistent;
    var toks := Texts(media);
    TextsOf(media);
    var vals := seq(|media|, _ => PATH);
    var order := FirstThenRest(i, |media|);
    OneLinkBody(j, toks);
    OneLinkBody(j, vals);
    assert AllFree(vals) by { LinkFree(); }
    var suffix := media[j].id[|media[i].id|..];
    assert toks[j] == toks[i] + suffix by { PrefixedTokens(media[i].id, media[j].id); }
    var text, after := LINK + toks[j] + ")", LINK + (PATH + (suffix + ")"));
    assert ReplaceAll(text, toks[i], PATH) == after && Free(after, MARK) by {
      assert media[j].id == media[i].id + suffix;
      assert Free(media[j].id, MARK);
      BreakOnce(media[i].id, suffix);
    }
    NothingToReplace(after, toks, vals, order[1..]);
    assert ReplaceInOrder(text, toks, vals, order) == after;
    assert suffix != "" by { DistinctIDs(media, i, j); }
    assert |Body(OneLink(j), vals)| < |after|;
  }

  lemma DistinctIDs(media: seq<Media>, i: nat, j: nat)
    requires Consistent(media) && i < |media| && j < |media| && i != j && media[i].id <= media[j].id
    ensures media[j].id[|media[i].id|..] != ""
  {
  }

  lemma TextsOf(media: seq<Media>)
    requires Consistent(media)
    ensures forall k :: 0 <= k < |media| ==> Texts(media)[k] == MARK + media[k].id
  {
  }

  lemma PrefixedTokens(a: string, b: string)
    requires a <= b
    ensures MARK + b == (MARK + a) + b[|a|..]
  {
  }

  lemma FreePart(a: string, b: string)
    requires Free(a + b, MARK)
    ensures Free(b, MARK)
  {
    forall i | 0 <= i <= |b| ensures !(MARK <= b[i..]) {
      assert (a + b)[|a| + i..] == b[i..];
    }
  }

  lemma HitOnce(before: string, pat: string, rest: string, sub: string)
    requires pat != "" && Quiet(before, pat + rest, pat) && Free(rest, pat)
    ensures ReplaceAll(before + (pat + rest), pat, sub) == before + (sub + rest)
  {
    hide Quiet, Free, ReplaceAll;
    ReplaceSkips(before, pat + rest, pat, sub);
    ReplaceHit(pat, rest, sub);
    ReplaceNothing(rest, pat, sub);
  }

  lemma QuietPath(rest: string)
    ensures Quiet(PATH, rest, MARK)
  {
    LinkFree();
    forall i | 0 <= i < |PATH| ensures !(MARK <= (PATH + rest)[i..]) {
      assert (PATH + rest)[i..][0] == PATH[i];
    }
  }

  /** The shorter token is found inside the longer one, and what is left of it stays. */
  lemma BreakOnce(id: string, suffix: string)
    requires Free(id + suffix, MARK)
    ensures ReplaceAll(LINK + ((MARK + id) + suffix) + ")", MARK + id, PATH) == LINK + (PATH + (suffix + ")"))
    ensures Free(LINK + (PATH + (suffix + ")")), MARK)
  {
    hide Free, Quiet, ReplaceAll;
    var pat, rest := MARK + id, suffix + ")";
    FreePart(id, suffix);
    LinkFree();
    QuietBeforeParenthesis(suffix, ")");
    FreeJoin(suffix, ")");
    QuietPath(rest);
    FreeJoin(PATH, rest);
    QuietAfterParenthesis(LINK, PATH + rest);
    FreeJoin(LINK, PATH + rest);
    QuietAfterParenthesis(LINK, pat + rest);
    QuietForLonger(LINK, pat + rest, MARK, pat);
    FreeOfLonger(rest, MARK, pat);
    HitOnce(LINK, pat, rest, PATH);
    assert LINK + (pat + rest) == LINK + ((MARK + id) + suffix) + ")";
  }

  /** The substitution can be relied on exactly when no ID begins with another one. */
  lemma WorksIffPrefixFree(media: seq<Media>)
    requires Consistent(media) && IDsFree(media)
    ensures forall i :: 0 <= i < |media| ==> Texts(media)[i] != ""
    ensures SubstitutionWorks(media) <==> IDsPrefixFree(media)
  {
    hide Consistent, IDsFree, ReplaceInOrder, Body, Parenthesised, AllFree;
    TextsOf(media);
    if IDsPrefixFree(media) {
      forall shape: Shape, vals: seq<string>, order: seq<nat> |
        && shape.For(|media|)
        && Parenthesised(shape)
        && AllFree(shape.lits)
        && |vals| == |media|
        && AllFree(vals)
        && IsOrder(order, |media|)
        ensures ReplaceInOrder(Body(shape, Texts(media)), Texts(media), vals, order) == Body(shape, vals)
      {
        PathsArrive(shape, media, vals, order);
      }
    } else {
      var i, j :| 0 <= i < |media| && 0 <= j < |media| && i != j && media[i].id <= media[j].id;
      PrefixesBreak(media, i, j);
    }
  }

  // ---------------------------------------------------------------- the import job

  /** The path a file ends up with: where it was saved, or its old address when that failed. */
  function Final(media: Media, saved: Option<string>): string { saved.GetOr(media.url) }

  function Finals(media: seq<Media>, saved: seq<Option<string>>): (r: seq<string>)
    requires |saved| == |media|
    ensures |r| == |media| && forall i :: 0 <= i < |r| ==> r[i] == Final(media[i], saved[i])
  {
    seq(|media|, i requires 0 <= i < |media| => Final(media[i], saved[i]))
  }

  function Failures<T>(results: seq<Option<T>>): nat {
    if results == [] then 0
    else Failures(results[..|results| - 1]) + (if results[|results| - 1].None? then 1 else 0)
  }

  lemma FailuresUpTo<T>(results: seq<Option<T>>, i: nat)
    requires i < |results|
    ensures Failures(results[..i + 1]) == Failures(results[..i]) + (if results[i].None? then 1 else 0)
  {
    assert results[..i + 1][..i] == results[..i];
  }

  method ReplaceMediaPlaceholders(body: string, mediaPaths: map<string, string>, ghost media: seq<Media>, ghost vals: seq<string>)
    returns (out: string)
    requires Consistent(media) && |vals| == |media|
    requires forall i :: 0 <= i < |media| ==> Texts(media)[i] in mediaPaths && mediaPaths[Texts(media)[i]] == vals[i]
    requires forall t :: t in mediaPaths ==> t in Texts(media)
    ensures forall i :: 0 <= i < |media| ==> Texts(media)[i] != ""
    ensures Replaced(body, Texts(media), vals, out)
  {
    hide Replaced, Consistent;
    TextsOf(media);
    forall i, j | 0 <= i < j < |media| ensures Texts(media)[i] != Texts(media)[j] {
      DistinctTexts(media, i, j);
    }
    out := ReplaceRange(body, mediaPaths, Texts(media), vals);
  }

  /** What the progress bar is told: never back, never over the total, and all of it at the end. */
  ghost predicate Progress(updates: seq<nat>, total: nat) {
    && (forall i, j :: 0 <= i < j < |updates| ==> updates[i] <= updates[j])
    && (forall i :: 0 <= i < |updates| ==> updates[i] <= total)
  }

  /** The bodies that are sent, each made from its draft with some order of the files. */
  ghost predicate Sent(drafts: seq<Draft>, media: seq<Media>, vals: seq<string>, bodies: seq<string>, n: nat)
    requires |vals| == |media| && (forall i :: 0 <= i < |media| ==> Texts(media)[i] != "")
  {
    && |bodies| == n <= |drafts|
    && forall k :: 0 <= k < n ==> Replaced(drafts[k].body, Texts(media), vals, bodies[k])
  }

  /** The paths known after the first `n` files. */
  ghost predicate PathsUpTo(media: seq<Media>, vals: seq<string>, n: nat, mediaPaths: map<string, string>)
    requires |vals| == |media| && n <= |media|
  {
    && (forall k :: 0 <= k < n ==> Texts(media)[k] in mediaPaths && mediaPaths[Texts(media)[k]] == vals[k])
    && (forall t :: t in mediaPaths ==> t in Texts(media))
  }

  lemma OneMorePath(media: seq<Media>, vals: seq<string>, n: nat, mediaPaths: map<string, string>)
    requires Consistent(media) && |vals| == |media| && n < |media| && PathsUpTo(media, vals, n, mediaPaths)
    ensures PathsUpTo(media, vals, n + 1, mediaPaths[Placeholder(media[n].id) := vals[n]])
  {
    hide Consistent, Placeholder;
    assert Placeholder(media[n].id) == Texts(media)[n];
    forall k | 0 <= k < n ensures Texts(media)[k] != Texts(media)[n] {
      DistinctTexts(media, k, n);
    }
  }

  ghost predicate Reported(updates: seq<nat>, total: nat, done: nat) {
    Progress(updates, total) && updates != [] && updates[|updates| - 1] == done
  }

  lemma Report(updates: seq<nat>, total: nat, done: nat, next: nat)
    requires Reported(updates, total, done) && done <= next <= total
    ensures Reported(updates + [next], total, next)
  {
  }

  method SaveMedia(media: seq<Media>, downloads: seq<Option<string>>, total: nat, sent: seq<nat>)
    returns (mediaPaths: map<string, string>, done: nat, errors: nat, updates: seq<nat>)
    requires Consistent(media) && |downloads| == |media| <= total && Reported(sent, total, 0)
    ensures PathsUpTo(media, Finals(media, downloads), |media|, mediaPaths)
    ensures done == |media| && errors == Failures(downloads) && Reported(updates, total, done)
  {
    hide Consistent, PathsUpTo, Reported;
    ghost var vals := Finals(media, downloads);
    done, errors, updates, mediaPaths := 0, 0, sent, map[];
    assert PathsUpTo(media, vals, 0, map[]) by { NoPaths(media, vals); }
    for i := 0 to |media|
      invariant done == i && errors == Failures(downloads[..i])
      invariant PathsUpTo(media, vals, i, mediaPaths) && Reported(updates, total, done)
    {
      Report(updates, total, done, done);
      updates := updates + [done];
      FailuresUpTo(downloads, i);
      OneMorePath(media, vals, i, mediaPaths);
      Report(updates, total, done, done + 1);
      done := done + 1;
      var placeholder := Placeholder(media[i].id);
      match downloads[i] {
        case None =>
          errors := errors + 1;
          mediaPaths := mediaPaths[placeholder := media[i].url];
        case Some(path) =>
          mediaPaths := mediaPaths[placeholder := path];
      }
      updates := updates + [done];
    }
    assert downloads[..|downloads|] == downloads;
  }

  lemma NoPaths(media: seq<Media>, vals: seq<string>)
    requires |vals| == |media|
    ensures PathsUpTo(media, vals, 0, map[])
  {
  }

  /** The loop over the posts, and the same loop over the pages. */
  method SaveDrafts(
    drafts: seq<Draft>, saves: seq<Option<string>>, mediaPaths: map<string, string>, total: nat, before: nat, sent: seq<nat>,
    ghost media: seq<Media>, ghost vals: seq<string>)
    returns (bodies: seq<string>, done: nat, errors: nat, updates: seq<nat>)
    requires Consistent(media) && |vals| == |media| && PathsUpTo(media, vals, |media|, mediaPaths)
    requires |saves| == |drafts| && before + |drafts| <= total && Reported(sent, total, before)
    ensures forall i :: 0 <= i < |media| ==> Texts(media)[i] != ""
    ensures Sent(drafts, media, vals, bodies, |drafts|)
    ensures done == before + |drafts| && errors == Failures(saves) && Reported(updates, total, done)
  {
    hide Consistent, Reported, Replaced;
    TextsOf(media);
    bodies, done, errors, updates := [], before, 0, sent;
    for i := 0 to |drafts|
      invariant done == before + i && errors == Failures(saves[..i])
      invariant Sent(drafts, media, vals, bodies, i) && Reported(updates, total, done)
    {
      var body := ReplaceMediaPlaceholders(drafts[i].body, mediaPaths, media, vals);
      bodies := bodies + [body];
      Report(updates, total, done, done + 1);
      done := done + 1;
      FailuresUpTo(saves, i);
      if saves[i].None? {
        errors := errors + 1;
      }
      updates := updates + [done];
    }
    assert saves[..|saves|] == saves;
  }

  method RunImport(
    batch: Batch, downloads: seq<Option<string>>, postSaves: seq<Option<string>>, pageSaves: seq<Option<string>>, reloaded: bool)
    returns (posts: seq<string>, pages: seq<string>, errors: nat, updates: seq<nat>)
    requires Consistent(batch.media)
    requires |downloads| == |batch.media| && |postSaves| == |batch.posts| && |pageSaves| == |batch.pages|
    ensures forall i :: 0 <= i < |batch.media| ==> Texts(batch.media)[i] != ""
    ensures var vals := Finals(batch.media, downloads);
            && Sent(batch.posts, batch.media, vals, posts, |batch.posts|)
            && Sent(batch.pages, batch.media, vals, pages, |batch.pages|)
    ensures errors == Failures(downloads) + Failures(postSaves) + Failures(pageSaves) + (if reloaded then 0 else 1)
    ensures var steps := |batch.media| + |batch.posts| + |batch.pages|;
            var total := if steps == 0 then 1 else steps;
            Reported(updates, total, total)
  {
    hide Consistent, PathsUpTo, Sent;
    var total := |batch.media| + |batch.posts| + |batch.pages|;
    if total == 0 {
      total := 1;
    }
    ghost var vals := Finals(batch.media, downloads);
    var mediaPaths, done, failed := map[], 0, 0;
    mediaPaths, done, errors, updates := SaveMedia(batch.media, downloads, total, [0]);
    posts, done, failed, updates := SaveDrafts(batch.posts, postSaves, mediaPaths, total, done, updates, batch.media, vals);
    errors := errors + failed;
    pages, done, failed, updates := SaveDrafts(batch.pages, pageSaves, mediaPaths, total, done, updates, batch.media, vals);
    errors := errors + failed;
    if !reloaded {
      errors := errors + 1;
    }
    Report(updates, total, done, done);
    updates := updates + [done];
    Report(updates, total, done, total);
    updates := updates + [total];
  }

  lemma DistinctTexts(media: seq<Media>, i: nat, j: nat)
    requires Consistent(media) && i < j < |media|
    ensures Texts(media)[i] != Texts(media)[j]
  {
    TextsOf(media);
    assert Texts(media)[i][|MARK|..] == media[i].id && Texts(media)[j][|MARK|..] == media[j].id;
  }

  /** From the export to what is sent: with IDs none of which begins with another, texts without the mark, and
      whatever downloads failed, every link of every post leads to its own file and no placeholder is left. */
  lemma ImportedBodiesAreRight(
    items: seq<Item>, shapes: seq<Shape>, media: seq<Media>, drafts: seq<Draft>, saved: seq<Option<string>>, bodies: seq<string>)
    requires Consistent(media) && IDsPrefixFree(media) && IDsFree(media)
    requires Drafts(items, shapes, media, drafts) && |saved| == |media|
    requires AllFree(Finals(media, saved)) && forall k :: 0 <= k < |shapes| ==> AllFree(shapes[k].lits)
    requires forall i :: 0 <= i < |media| ==> Texts(media)[i] != ""
    requires Sent(drafts, media, Finals(media, saved), bodies, |drafts|)
    ensures forall k :: 0 <= k < |bodies| ==>
      bodies[k] == Body(shapes[k], Finals(media, saved)) && Free(bodies[k], MARK)
  {
    hide Consistent, IDsPrefixFree, IDsFree, AllFree, Fill, ReplaceInOrder, Free;
    var vals := Finals(media, saved);
    forall k | 0 <= k < |bodies| ensures bodies[k] == Body(shapes[k], vals) && Free(bodies[k], MARK) {
      assert DraftOf(items[k], shapes[k], Texts(media), drafts[k]);
      assert Replaced(drafts[k].body, Texts(media), vals, bodies[k]);
      var order :| IsOrder(order, |media|) && bodies[k] == ReplaceInOrder(drafts[k].body, Texts(media), vals, order);
      PathsArrive(shapes[k], media, vals, order);
      assert AllFree(Chosen(shapes[k].slots, vals)) by { ChosenFree(shapes[k].slots, vals); }
      NoMarkLeft(shapes[k].lits, Chosen(shapes[k].slots, vals));
    }
  }

  lemma ChosenFree(slots: seq<nat>, vals: seq<string>)
    requires (forall j :: 0 <= j < |slots| ==> slots[j] < |vals|) && AllFree(vals)
    ensures AllFree(Chosen(slots, vals))
  {
    hide Free;
  }
}
