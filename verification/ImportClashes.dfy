/** What the placeholder substitution does when one ID begins with another, as `wxr-1` does with `wxr-12`. */
module ImportClashes {
  import opened Text
  import opened Substitution
  import opened Importer
  import opened ImportBatch

  // ---------------------------------------------------------------- replacing the shorter token

  /** The tokens that begin with token `k`. */
  ghost function Extensions(toks: seq<string>, k: nat): set<nat>
    requires k < |toks|
  {
    set j | 0 <= j < |toks| && toks[k] <= toks[j]
  }

  /** Token `k` is found at a hole only when the token that is shown there begins with it. */
  ghost predicate NoAccident(lits: seq<string>, slots: seq<nat>, toks: seq<string>, vals: seq<string>, done: set<nat>, k: nat)
    requires |lits| == |slots| + 1 && |toks| == |vals| && k < |toks|
    requires forall j :: 0 <= j < |slots| ==> slots[j] < |toks|
    decreases |slots|
  {
    slots != [] ==>
      && (slots[0] !in done ==>
            (toks[k] <= toks[slots[0]] + Filled(lits[1..], slots[1..], toks, vals, done) ==> toks[k] <= toks[slots[0]]))
      && NoAccident(lits[1..], slots[1..], toks, vals, done, k)
  }

  /** Where a longer token begins with `k`, its value is the new text followed by what is left of the token. */
  ghost predicate LeavesRest(slots: seq<nat>, toks: seq<string>, vals: seq<string>, done: set<nat>, k: nat, sub: string)
    requires |toks| == |vals| && k < |toks|
    requires forall j :: 0 <= j < |slots| ==> slots[j] < |toks|
  {
    forall h :: 0 <= h < |slots| && slots[h] !in done && toks[k] <= toks[slots[h]] ==>
      vals[slots[h]] == sub + toks[slots[h]][|toks[k]|..]
  }

  lemma QuietUnlessPrefix(tok: string, pat: string, rest: string, mark: string)
    requires tok != "" && pat != "" && mark <= pat && Quiet(tok[1..], rest, mark) && !(pat <= tok + rest)
    ensures Quiet(tok, rest, pat)
  {
    QuietForLonger(tok[1..], rest, mark, pat);
    forall i | 0 <= i < |tok| ensures !(pat <= (tok + rest)[i..]) {
      if i == 0 {
        assert (tok + rest)[0..] == tok + rest;
      } else {
        assert (tok + rest)[i..] == (tok[1..] + rest)[i - 1..];
      }
    }
  }

  lemma QuietSuffix(tok: string, rest: string, mark: string, n: nat)
    requires 1 <= n <= |tok| && Quiet(tok[1..], rest, mark)
    ensures Quiet(tok[n..], rest, mark)
  {
    forall i | 0 <= i < |tok[n..]| ensures !(mark <= (tok[n..] + rest)[i..]) {
      assert (tok[n..] + rest)[i..] == (tok[1..] + rest)[n - 1 + i..];
    }
  }

  lemma TokenAtHole(tok: string, pat: string, rest: string, mark: string, sub: string)
    requires tok != "" && mark != "" && mark <= pat && Quiet(tok[1..], rest, mark)
    requires pat <= tok + rest ==> pat <= tok
    ensures ReplaceAll(tok + rest, pat, sub) == (if pat <= tok then sub + tok[|pat|..] else tok) + ReplaceAll(rest, pat, sub)
  {
    hide Quiet, ReplaceAll;
    if pat <= tok {
      var suffix := tok[|pat|..];
      assert tok + rest == pat + (suffix + rest);
      ReplaceHit(pat, suffix + rest, sub);
      QuietSuffix(tok, rest, mark, |pat|);
      QuietForLonger(suffix, rest, mark, pat);
      ReplaceSkips(suffix, rest, pat, sub);
      assert sub + (suffix + ReplaceAll(rest, pat, sub)) == (sub + suffix) + ReplaceAll(rest, pat, sub);
    } else {
      QuietUnlessPrefix(tok, pat, rest, mark);
      ReplaceSkips(tok, rest, pat, sub);
    }
  }

  /** One token replaced: all holes whose token begins with it are filled. */
  lemma {:induction false} ReplaceExtensions(
    lits: seq<string>, slots: seq<nat>, toks: seq<string>, vals: seq<string>, done: set<nat>, mark: string, k: nat, sub: string)
    requires |lits| == |slots| + 1 && |toks| == |vals| && k < |toks|
    requires forall j :: 0 <= j < |slots| ==> slots[j] < |toks|
    requires mark != "" && (forall j :: 0 <= j < |toks| ==> toks[j] != "" && mark <= toks[j])
    requires Anchored(lits, slots, toks, vals, done, mark)
    requires NoAccident(lits, slots, toks, vals, done, k) && LeavesRest(slots, toks, vals, done, k, sub)
    ensures ReplaceAll(Filled(lits, slots, toks, vals, done), toks[k], sub)
         == Filled(lits, slots, toks, vals, done + Extensions(toks, k))
    decreases |slots|
  {
    hide ReplaceAll, Filled, Quiet;
    var pat := toks[k];
    if slots == [] {
      FilledNone(lits, toks, vals, done);
      FilledNone(lits, toks, vals, done + Extensions(toks, k));
      QuietForLonger(lits[0], "", mark, pat);
      ReplaceEmpty(pat, sub);
      ReplaceSkips(lits[0], "", pat, sub);
      assert lits[0] + "" == lits[0];
    } else {
      var rest, j := Filled(lits[1..], slots[1..], toks, vals, done), slots[0];
      var shown := if j in done then vals[j] else toks[j];
      var next := if j in done + Extensions(toks, k) then vals[j] else toks[j];
      ReplaceExtensions(lits[1..], slots[1..], toks, vals, done, mark, k, sub);
      QuietForLonger(lits[0], shown + rest, mark, pat);
      assert ReplaceAll(shown + rest, pat, sub) == next + ReplaceAll(rest, pat, sub) by {
        if j in done {
          QuietForLonger(shown, rest, mark, pat);
          ReplaceSkips(shown, rest, pat, sub);
        } else {
          TokenAtHole(toks[j], pat, rest, mark, sub);
        }
      }
      ReplaceAtHole(lits[0], shown, next, rest, pat, sub);
      FilledStep(lits, slots, toks, vals, done);
      FilledStep(lits, slots, toks, vals, done + Extensions(toks, k));
    }
  }

  lemma ReplaceEmpty(pat: string, sub: string)
    requires pat != ""
    ensures ReplaceAll("", pat, sub) == ""
  {
  }

  lemma FilledNone(lits: seq<string>, toks: seq<string>, vals: seq<string>, done: set<nat>)
    requires |lits| == 1 && |toks| == |vals|
    ensures Filled(lits, [], toks, vals, done) == lits[0]
  {
  }

  // ---------------------------------------------------------------- the longest first

  /** Each token once, the longer ones before the shorter ones. */
  ghost predicate LongestFirst(order: seq<nat>, todo: set<nat>, toks: seq<string>) {
    && (forall a :: 0 <= a < |order| ==> order[a] in todo && order[a] < |toks|)
    && (forall k :: k in todo ==> k in order)
    && (forall a, b :: 0 <= a < b < |order| ==> order[a] != order[b] && |toks[order[a]]| >= |toks[order[b]]|)
  }

  lemma {:induction false} Longest(todo: set<nat>, toks: seq<string>) returns (k: nat)
    requires todo != {} && forall j :: j in todo ==> j < |toks|
    ensures k in todo && forall j :: j in todo ==> |toks[j]| <= |toks[k]|
    decreases |todo|
  {
    k :| k in todo;
    if todo != {k} {
      var other := Longest(todo - {k}, toks);
      if |toks[k]| < |toks[other]| { k := other; }
    }
  }

  lemma {:induction false} SortLongest(todo: set<nat>, toks: seq<string>) returns (order: seq<nat>)
    requires forall j :: j in todo ==> j < |toks|
    ensures LongestFirst(order, todo, toks)
    decreases |todo|
  {
    if todo == {} {
      order := [];
    } else {
      var k := Longest(todo, toks);
      var rest := SortLongest(todo - {k}, toks);
      order := [k] + rest;
      forall j | j in todo ensures j in order {
        if j != k { assert j in rest; }
      }
    }
  }

  lemma LaterLongest(order: seq<nat>, todo: set<nat>, toks: seq<string>)
    requires order != [] && LongestFirst(order, todo, toks)
    ensures LongestFirst(order[1..], todo - {order[0]}, toks)
    ensures forall j :: j in todo ==> j < |toks| && |toks[j]| <= |toks[order[0]]|
    ensures order[0] in todo
  {
    forall j | j in todo ensures j < |toks| && |toks[j]| <= |toks[order[0]]| {
      var a :| 0 <= a < |order| && order[a] == j;
    }
    forall j | j in todo - {order[0]} ensures j in order[1..] {
      var a :| 0 <= a < |order| && order[a] == j;
      assert order[1..][a - 1] == j;
    }
  }

  // ---------------------------------------------------------------- bodies

  predicate NoParenthesis(text: string) { ')' !in text }

  ghost predicate NoneHas(texts: seq<string>) {
    forall i :: 0 <= i < |texts| ==> NoParenthesis(texts[i])
  }

  /** Placeholders stand before a closing parenthesis, so a token without one is not found by accident. */
  lemma {:induction false} BodyHasNoAccident(shape: Shape, toks: seq<string>, vals: seq<string>, done: set<nat>, k: nat, from: nat)
    requires |toks| == |vals| && shape.For(|toks|) && Parenthesised(shape) && k < |toks| && from <= |shape.slots|
    requires NoParenthesis(toks[k])
    ensures NoAccident(shape.lits[from..], shape.slots[from..], toks, vals, done, k)
    decreases |shape.slots| - from
  {
    hide Fillings, Fill;
    var lits, slots := shape.lits[from..], shape.slots[from..];
    if slots != [] {
      BodyHasNoAccident(shape, toks, vals, done, k, from + 1);
      assert lits[1..] == shape.lits[from + 1..] && slots[1..] == shape.slots[from + 1..];
      FillStart(lits[1..], Fillings(slots[1..], toks, vals, done));
      ParenthesisStops(toks[k], toks[slots[0]], Filled(lits[1..], slots[1..], toks, vals, done));
    }
  }

  lemma ParenthesisStops(pat: string, tok: string, rest: string)
    requires NoParenthesis(pat) && rest != "" && rest[0] == ')'
    ensures pat <= tok + rest ==> pat <= tok
  {
    assert (tok + rest)[|tok|] == ')';
    assert |pat| <= |tok| ==> (tok + rest)[..|pat|] == tok[..|pat|];
  }

  /** The longest first, every hole that is left gets its own value. */
  lemma {:induction false} LongestFirstFills(
    shape: Shape, toks: seq<string>, vals: seq<string>, fill: seq<string>, done: set<nat>, todo: set<nat>, order: seq<nat>)
    requires |toks| == |vals| == |fill| && shape.For(|toks|) && Parenthesised(shape)
    requires AllFree(shape.lits) && AllFree(fill) && NoneHas(toks)
    requires forall j :: 0 <= j < |toks| ==> toks[j] != "" && MARK <= toks[j] && Free(toks[j][1..], MARK)
    requires forall a, b :: 0 <= a < b < |toks| ==> toks[a] != toks[b]
    requires LongestFirst(order, todo, toks)
    requires forall j: nat :: j < |toks| && j !in done ==> j in todo && fill[j] == vals[j]
    ensures ReplaceInOrder(Filled(shape.lits, shape.slots, toks, fill, done), toks, vals, order)
         == Fill(shape.lits, Chosen(shape.slots, fill))
    decreases |order|
  {
    hide Free, AllFree, NoParenthesis, Parenthesised, Anchored, NoAccident, Fill, ReplaceAll;
    if order == [] {
      assert Fillings(shape.slots, toks, fill, done) == Chosen(shape.slots, fill);
    } else {
      var k := order[0];
      LaterLongest(order, todo, toks);
      BodyAnchored(shape, toks, fill, done, 0);
      BodyHasNoAccident(shape, toks, fill, done, k, 0);
      assert shape.lits[0..] == shape.lits && shape.slots[0..] == shape.slots;
      OnlyItself(shape.slots, toks, vals, fill, done, todo, k);
      MarkLetters();
      ReplaceExtensions(shape.lits, shape.slots, toks, fill, done, MARK, k, vals[k]);
      LongestFirstFills(shape, toks, vals, fill, done + Extensions(toks, k), todo - {k}, order[1..]);
    }
  }

  lemma OnlyItself(slots: seq<nat>, toks: seq<string>, vals: seq<string>, fill: seq<string>, done: set<nat>, todo: set<nat>, k: nat)
    requires |toks| == |vals| == |fill| && k < |toks| && forall j :: 0 <= j < |slots| ==> slots[j] < |toks|
    requires forall a, b :: 0 <= a < b < |toks| ==> toks[a] != toks[b]
    requires forall j :: j in todo ==> j < |toks| && |toks[j]| <= |toks[k]|
    requires forall j: nat :: j < |toks| && j !in done ==> j in todo && fill[j] == vals[j]
    ensures LeavesRest(slots, toks, fill, done, k, vals[k])
  {
    forall h | 0 <= h < |slots| && slots[h] !in done && toks[k] <= toks[slots[h]]
      ensures fill[slots[h]] == vals[k] + toks[slots[h]][|toks[k]|..]
    {
      assert toks[slots[h]] == toks[k];
      assert slots[h] == k;
      assert vals[k] + toks[k][|toks[k]|..] == vals[k];
    }
  }

  // ---------------------------------------------------------------- the wrong paths

  /** The texts that take the places of the placeholders when that of file `i` is replaced first: its path, and the
      rest of the longer ID behind it. */
  function Mixed(media: seq<Media>, vals: seq<string>, i: nat): (r: seq<string>)
    requires |vals| == |media| && i < |media|
    ensures |r| == |media|
  {
    seq(|media|, k requires 0 <= k < |media| =>
      if media[i].id <= media[k].id then vals[i] + media[k].id[|media[i].id|..] else vals[k])
  }

  lemma TokenPrefixes(media: seq<Media>, i: nat, k: nat)
    requires Consistent(media) && i < |media| && k < |media|
    ensures Texts(media)[i] <= Texts(media)[k] <==> media[i].id <= media[k].id
    ensures Texts(media)[i] <= Texts(media)[k] ==> Texts(media)[k][|Texts(media)[i]|..] == media[k].id[|media[i].id|..]
  {
    TextsOf(media);
    PrefixUnderMark(media[i].id, media[k].id);
    if media[i].id <= media[k].id { PrefixedTokens(media[i].id, media[k].id); }
  }

  lemma MarkHasNoParenthesis(id: string)
    ensures NoParenthesis(id) ==> NoParenthesis(MARK + id)
  {
    MarkLetters();
  }

  lemma BodyTokens(media: seq<Media>)
    requires Consistent(media) && IDsFree(media) && forall k :: 0 <= k < |media| ==> NoParenthesis(media[k].id)
    ensures var toks := Texts(media);
            && NoneHas(toks)
            && (forall j :: 0 <= j < |toks| ==> toks[j] != "" && MARK <= toks[j] && Free(toks[j][1..], MARK))
            && (forall a, b :: 0 <= a < b < |toks| ==> toks[a] != toks[b])
  {
    hide Free, NoParenthesis;
    var toks := Texts(media);
    TextsOf(media);
    forall j | 0 <= j < |toks| ensures toks[j] != "" && MARK <= toks[j] && Free(toks[j][1..], MARK) && NoParenthesis(toks[j]) {
      TokenTailFree(media[j].id);
      MarkHasNoParenthesis(media[j].id);
    }
    forall a, b | 0 <= a < b < |toks| ensures toks[a] != toks[b] { DistinctTexts(media, a, b); }
  }

  /** What comes out of any body when file `i` comes first and the others follow, the longest ID first. */
  lemma ShorterFirst(shape: Shape, media: seq<Media>, vals: seq<string>, i: nat) returns (order: seq<nat>)
    requires Consistent(media) && IDsFree(media) && (forall k :: 0 <= k < |media| ==> NoParenthesis(media[k].id))
    requires shape.For(|media|) && Parenthesised(shape) && AllFree(shape.lits)
    requires |vals| == |media| && i < |media| && AllFree(Mixed(media, vals, i))
    ensures forall k :: 0 <= k < |media| ==> Texts(media)[k] != ""
    ensures IsOrder(order, |media|) && order != [] && order[0] == i
    ensures ReplaceInOrder(Body(shape, Texts(media)), Texts(media), vals, order) == Body(shape, Mixed(media, vals, i))
  {
    hide Free, AllFree, NoParenthesis, Parenthesised, Anchored, NoAccident, Fill, ReplaceAll, Consistent, IDsFree, NoneHas;
    var toks, fill, n := Texts(media), Mixed(media, vals, i), |media|;
    BodyTokens(media);
    var todo := (set k | k in FirstThenRest(i, n)) - {i};
    var rest := SortLongest(todo, toks);
    order := [i] + rest;
    OrderFrom(i, todo, rest, toks);
    assert order[1..] == rest;
    assert Fillings(shape.slots, toks, fill, {}) == Chosen(shape.slots, toks);
    BodyAnchored(shape, toks, fill, {}, 0);
    assert NoParenthesis(toks[i]) by { ThatOne(toks, i); }
    BodyHasNoAccident(shape, toks, fill, {}, i, 0);
    assert shape.lits[0..] == shape.lits && shape.slots[0..] == shape.slots;
    MarkLetters();
    forall k | 0 <= k < n
      ensures toks[i] <= toks[k] ==> fill[k] == vals[i] + toks[k][|toks[i]|..]
      ensures !(toks[i] <= toks[k]) ==> fill[k] == vals[k]
    {
      TokenPrefixes(media, i, k);
    }
    ReplaceExtensions(shape.lits, shape.slots, toks, fill, {}, MARK, i, vals[i]);
    LongestFirstFills(shape, toks, vals, fill, {} + Extensions(toks, i), todo, rest);
  }

  lemma ThatOne(texts: seq<string>, i: nat)
    requires NoneHas(texts) && i < |texts|
    ensures NoParenthesis(texts[i])
  {
  }

  lemma OrderFrom(i: nat, todo: set<nat>, rest: seq<nat>, toks: seq<string>)
    requires i < |toks| && (forall k: nat :: k in todo <==> k < |toks| && k != i) && LongestFirst(rest, todo, toks)
    ensures IsOrder([i] + rest, |toks|)
  {
    forall k: nat | k < |toks| ensures k in [i] + rest {
      if k != i { assert k in rest; }
    }
  }

  /** Texts between parentheses can be told apart in a body. */
  lemma {:induction false} FillingsShow(lits: seq<string>, f: seq<string>, g: seq<string>)
    requires |lits| == |f| + 1 == |g| + 1 && NoneHas(f) && NoneHas(g)
    requires forall j :: 1 <= j < |lits| ==> lits[j] != "" && lits[j][0] == ')'
    ensures Fill(lits, f) == Fill(lits, g) ==> f == g
  {
    if f != [] && Fill(lits, f) == Fill(lits, g) {
      var a, b := Fill(lits[1..], f[1..]), Fill(lits[1..], g[1..]);
      FillStart(lits[1..], f[1..]);
      FillStart(lits[1..], g[1..]);
      assert Fill(lits, f)[|lits[0]|..] == f[0] + a && Fill(lits, g)[|lits[0]|..] == g[0] + b;
      SameUpTo(f[0], a, g[0], b);
      FillingsShow(lits[1..], f[1..], g[1..]);
      assert f == [f[0]] + f[1..] && g == [g[0]] + g[1..];
    }
  }

  lemma SameUpTo(x: string, a: string, y: string, b: string)
    requires NoParenthesis(x) && NoParenthesis(y) && a != "" && b != "" && a[0] == ')' == b[0]
    ensures x + a == y + b ==> x == y && a == b
  {
    if x + a == y + b {
      ParenthesisStops(x, y, b);
      ParenthesisStops(y, x, a);
      assert (x + a)[|x|..] == a && (y + b)[|y|..] == b;
    }
  }

  /** Every link comes out right if and only if each longer ID's path happens to be the shorter one's with the rest of
      the ID behind it. */
  lemma RightOnlyByAccident(shape: Shape, media: seq<Media>, vals: seq<string>, i: nat) returns (order: seq<nat>)
    requires Consistent(media) && IDsFree(media) && (forall k :: 0 <= k < |media| ==> NoParenthesis(media[k].id))
    requires shape.For(|media|) && Parenthesised(shape) && AllFree(shape.lits)
    requires |vals| == |media| && i < |media| && AllFree(Mixed(media, vals, i)) && NoneHas(vals)
    ensures forall k :: 0 <= k < |media| ==> Texts(media)[k] != ""
    ensures IsOrder(order, |media|) && order != [] && order[0] == i
    ensures ReplaceInOrder(Body(shape, Texts(media)), Texts(media), vals, order) == Body(shape, vals)
       <==> forall h :: 0 <= h < |shape.slots| && media[i].id <= media[shape.slots[h]].id ==>
              vals[i] + media[shape.slots[h]].id[|media[i].id|..] == vals[shape.slots[h]]
  {
    hide Fill, Consistent, IDsFree, ReplaceInOrder, AllFree, IsOrder, NoParenthesis;
    order := ShorterFirst(shape, media, vals, i);
    var fill := Mixed(media, vals, i);
    forall k | 0 <= k < |media| ensures NoParenthesis(fill[k]) { MixedHasNone(media, vals, i, k); }
    FillingsShow(shape.lits, Chosen(shape.slots, fill), Chosen(shape.slots, vals));
    if forall h :: 0 <= h < |shape.slots| ==> fill[shape.slots[h]] == vals[shape.slots[h]] {
      assert Chosen(shape.slots, fill) == Chosen(shape.slots, vals);
    }
    if Chosen(shape.slots, fill) == Chosen(shape.slots, vals) {
      forall h | 0 <= h < |shape.slots| ensures fill[shape.slots[h]] == vals[shape.slots[h]] {
        assert Chosen(shape.slots, fill)[h] == Chosen(shape.slots, vals)[h];
      }
    }
  }

  lemma MixedHasNone(media: seq<Media>, vals: seq<string>, i: nat, k: nat)
    requires |vals| == |media| && i < |media| && k < |media| && NoneHas(vals) && NoParenthesis(media[k].id)
    ensures NoParenthesis(Mixed(media, vals, i)[k])
  {
  }

  // ---------------------------------------------------------------- attachments 1 and 12

  const PICTURE := Figure("u12", "a", "", "f")

  /** An export with two attachments and a post that shows the second one. */
  const EXPORT := [
    Item("attachment", "inherit", "", "1", "u1", []),
    Item("attachment", "inherit", "", "12", "u12", []),
    Item("post", "publish", "t", "7", "", [PICTURE])]

  const FILES := [Media("wxr-1", "u1"), Media("wxr-12", "u12")]
  const PAGE := Shape([FigureStart("a"), FigureEnd("a", "f")], [1])

  lemma PlainTexts()
    ensures TrimSpace("1") == "1" && TrimSpace("12") == "12" && TrimSpace("u1") == "u1" && TrimSpace("u12") == "u12"
    ensures TrimSpace("a") == "a"
  {
    assert Trimmed("1") && Trimmed("12") && Trimmed("u1") && Trimmed("u12") && Trimmed("a");
  }

  lemma FirstAdded()
    ensures Added(State([], 0), "u1", "1").0 == State(FILES[..1], 0)
  {
    hide TrimSpace;
    PlainTexts();
    assert "wxr-" + "1" == "wxr-1";
    assert BaseID("1", 0) == ("wxr-1", 0);
    assert IDs([]) == {};
    assert FILES[..1] == [] + [Media("wxr-1", "u1")];
  }

  lemma SecondAdded()
    ensures Added(State(FILES[..1], 0), "u12", "12").0 == State(FILES, 0)
  {
    hide TrimSpace;
    PlainTexts();
    assert "wxr-" + "12" == "wxr-12";
    assert BaseID("12", 0) == ("wxr-12", 0);
    assert FILES[..1] == [Media("wxr-1", "u1")];
    assert IDs(FILES[..1]) == {"wxr-1"} by { assert FILES[..1][0].id == "wxr-1"; }
    assert Find(FILES[..1], "u12") == None;
    assert FILES == FILES[..1] + [Media("wxr-12", "u12")];
  }

  lemma PictureVisited(upload: UploadTest)
    ensures VisitAll(State(FILES, 0), [PICTURE], upload) == (State(FILES, 0), PAGE)
  {
    hide TrimSpace, FigureStart, FigureEnd;
    PlainTexts();
    var s := State(FILES, 0);
    assert [PICTURE][..0] == [];
    assert VisitAll(s, [], upload) == (s, EMPTY);
    assert Find(FILES, "u12").Some?;
    assert Find(FILES, "u12") == Some(1) by { assert FILES[0].url != "u12"; }
    assert Added(s, "u12", "") == (s, Some(1));
    assert "" + FigureStart("a") == FigureStart("a");
    assert EMPTY.AddHole(FigureStart("a"), 1, FigureEnd("a", "f")) == PAGE;
  }

  lemma ExportPrefixes()
    ensures EXPORT[..1] == [EXPORT[0]] && EXPORT[..1][..0] == [] && EXPORT[..2][..1] == EXPORT[..1]
    ensures EXPORT[..2][1] == EXPORT[1] && EXPORT[..2] == EXPORT[..|EXPORT| - 1] && |EXPORT| == 3
  {
  }

  lemma AttachmentsRead()
    ensures Attachments(EXPORT) == State(FILES, 0)
  {
    hide TrimSpace, Added;
    PlainTexts();
    ExportPrefixes();
    FirstAdded();
    SecondAdded();
    assert Attachments(EXPORT[..1]) == State(FILES[..1], 0);
    assert Attachments(EXPORT[..2]) == State(FILES, 0);
  }

  lemma BodiesRead(upload: UploadTest)
    ensures After(State(FILES, 0), EXPORT, upload).media == FILES
    ensures Selected(EXPORT, "post") == [EXPORT[2]] && Shapes(State(FILES, 0), EXPORT, "post", upload) == [PAGE]
  {
    hide TrimSpace, Added, VisitAll;
    ExportPrefixes();
    PictureVisited(upload);
    var s := State(FILES, 0);
    assert After(s, EXPORT[..1], upload) == s;
    assert After(s, EXPORT[..2], upload) == s;
    assert Selected(EXPORT[..1], "post") == [] && Selected(EXPORT[..2], "post") == [];
    assert Shapes(s, EXPORT[..1], "post", upload) == [] && Shapes(s, EXPORT[..2], "post", upload) == [];
  }

  lemma ExportRead(upload: UploadTest)
    ensures Attachments(EXPORT) == State(FILES, 0) && After(State(FILES, 0), EXPORT, upload).media == FILES
    ensures Selected(EXPORT, "post") == [EXPORT[2]] && Shapes(State(FILES, 0), EXPORT, "post", upload) == [PAGE]
  {
    hide Attachments, After, Selected, Shapes;
    AttachmentsRead();
    BodiesRead(upload);
  }

  const PATHS := ["/media/1.png", "/media/12.png"]

  lemma PathsAreClean()
    ensures AllFree(Mixed(FILES, PATHS, 0)) && NoneHas(PATHS) && Mixed(FILES, PATHS, 0)[1] == "/media/1.png2"
  {
    assert "wxr-12"[|"wxr-1"|..] == "2" && "wxr-1"[|"wxr-1"|..] == "";
    var mixed := Mixed(FILES, PATHS, 0);
    assert "/media/1.png" + "2" == "/media/1.png2" && "/media/1.png" + "" == "/media/1.png";
    assert FILES[0].id <= FILES[1].id && FILES[0].id <= FILES[0].id;
    assert mixed[0] == "/media/1.png" && mixed[1] == "/media/1.png2";
    MarkLetters();
    assert |MARK| > |mixed[0]| && |MARK| > |mixed[1]|;
    assert Free(mixed[0], MARK) && Free(mixed[1], MARK);
  }

  lemma {:induction false} PlainEscapes()
    ensures EscapeAlt("a") == "a" && EscapeCaption("a") == "a"
  {
    hide ReplaceAll;
    assert forall c :: c != 'a' ==> c !in "a";
    FreeOfChar("a", '\\');
    FreeOfChar("a", ']');
    FreeOfChar("a", '{');
    FreeOfChar("a", '}');
    ReplaceNothing("a", "\\", "\\\\");
    ReplaceNothing("a", "]", "\\]");
    ReplaceNothing("a", "{", "");
    ReplaceNothing("a", "}", "");
  }

  lemma FreeWithoutS(text: string)
    requires 's' !in text
    ensures Free(text, MARK)
  {
    assert MARK[2] == 's';
    forall i | 0 <= i <= |text| ensures !(MARK <= text[i..]) {
      assert |text| - i > 2 ==> text[i..][2] == text[i + 2];
    }
  }

  lemma PageIsClean()
    ensures PAGE.For(2) && Parenthesised(PAGE) && AllFree(PAGE.lits)
  {
    hide EscapeAlt, EscapeCaption, Free;
    PlainEscapes();
    Brackets("a", "a", "f", "", "");
    assert 's' !in "\\begin{figure}\n![" && 's' !in "a" && 's' !in "](";
    assert 's' !in ")" && 's' !in "\n\\caption{" && 's' !in "}\n\\label{fig:" && 's' !in "f" && 's' !in "}\n\\end{figure}";
    assert 's' !in FigureStart("a") && 's' !in FigureEnd("a", "f");
    FreeWithoutS(FigureStart("a"));
    FreeWithoutS(FigureEnd("a", "f"));
  }

  /** From that export to what is posted: in some order the picture of attachment 12 is looked for under the path of
      attachment 1, with a 2 behind it. */
  lemma TwelveIsLost(upload: UploadTest, batch: Batch) returns (out: string)
    requires BatchOf(EXPORT, upload, batch)
    ensures |batch.posts| == 1 && |batch.media| == 2 && forall k :: 0 <= k < 2 ==> Texts(batch.media)[k] != ""
    ensures Replaced(batch.posts[0].body, Texts(batch.media), PATHS, out)
    ensures out == FigureStart("a") + "/media/1.png2" + FigureEnd("a", "f") != Body(PAGE, PATHS)
  {
    hide FigureStart, FigureEnd, Consistent, IsOrder, Mixed, Drafts, VisitAll, After, Attachments, Selected, Shapes, Skipped, Parenthesised;
    hide Fill, Free, ReplaceInOrder, AllFree, NoneHas;
    ExportRead(upload);
    var media := batch.media;
    assert media == FILES;
    OnlyPost(upload, batch);
    FilesAreClean();
    PathsAreClean();
    PageIsClean();
    TextsOf(media);
    var order := ShorterFirst(PAGE, media, PATHS, 0);
    out := Body(PAGE, Mixed(media, PATHS, 0));
    PageBody(Mixed(media, PATHS, 0));
    PageBody(PATHS);
    assert "/media/1.png2" != "/media/12.png" && |"/media/1.png2"| == |"/media/12.png"|;
    DifferentMiddle(FigureStart("a"), "/media/1.png2", "/media/12.png", FigureEnd("a", "f"));
  }

  lemma DifferentMiddle(a: string, x: string, y: string, b: string)
    requires x != y
    ensures a + x + b != a + y + b
  {
    assert forall z: string :: (a + z + b)[|a|..|a| + |z|] == z;
  }

  lemma FilesAreClean()
    ensures IDsFree(FILES) && forall k :: 0 <= k < 2 ==> NoParenthesis(FILES[k].id)
  {
    assert |MARK| > |FILES[0].id| && |MARK| > |FILES[1].id|;
    assert Free(FILES[0].id, MARK) && Free(FILES[1].id, MARK);
  }

  lemma OnlyPost(upload: UploadTest, batch: Batch)
    requires BatchOf(EXPORT, upload, batch)
    ensures |batch.posts| == 1 && batch.media == FILES && PAGE.For(2) && batch.posts[0].body == Body(PAGE, Texts(FILES))
  {
    hide VisitAll, After, Attachments, Selected, Shapes, Skipped, Body, Parenthesised;
    ExportRead(upload);
  }

  lemma PageBody(texts: seq<string>)
    requires |texts| == 2
    ensures PAGE.For(2) && Body(PAGE, texts) == FigureStart("a") + texts[1] + FigureEnd("a", "f")
  {
    hide FigureStart, FigureEnd;
    assert Chosen(PAGE.slots, texts) == [texts[1]];
    assert PAGE.lits[1..] == [FigureEnd("a", "f")] && [texts[1]][1..] == [];
    assert Fill([FigureEnd("a", "f")], []) == FigureEnd("a", "f");
    assert Fill(PAGE.lits, [texts[1]]) == PAGE.lits[0] + texts[1] + Fill(PAGE.lits[1..], [texts[1]][1..]);
  }
}
