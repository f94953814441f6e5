/** Texts that carry placeholder tokens, and what replacing the tokens one after another does to them.

    A text with holes is a list of literals with one filling between each two of them. The renderer and
    the importer both fill the holes with tokens first and later run `strings.ReplaceAll` once per token,
    ranging over a map, so in an order nobody controls. */
module Substitution {

  /** `strings.ReplaceAll` for a non-empty pattern: leftmost, non-overlapping occurrences. */
  function ReplaceAll(s: string, pat: string, sub: string): string
    requires pat != ""
  {
    if s == "" then ""
    else if pat <= s then sub + ReplaceAll(s[|pat|..], pat, sub)
    else [s[0]] + ReplaceAll(s[1..], pat, sub)
  }

  /** All line ends become "\n". */
  function UnixNewlines(s: string): string {
    ReplaceAll(ReplaceAll(s, "\r\n", "\n"), "\r", "\n")
  }

  /** No occurrence of `mark` starts inside `a` when `a` is followed by `rest`. */
  ghost predicate Quiet(a: string, rest: string, mark: string) {
    forall i :: 0 <= i < |a| ==> !(mark <= (a + rest)[i..])
  }

  ghost predicate Free(s: string, mark: string) {
    forall i :: 0 <= i <= |s| ==> !(mark <= s[i..])
  }

  lemma PrefixOfPrefix(a: string, b: string, c: string)
    requires a <= b
    ensures b <= c ==> a <= c
  {
  }

  lemma PrefixesOfOne(a: string, b: string, rest: string)
    ensures a <= b + rest ==> a <= b || b <= a
  {
    if a <= b + rest {
      if |a| <= |b| {
        assert a == (b + rest)[..|a|] == b[..|a|];
      } else {
        assert b == (b + rest)[..|b|] == a[..|b|];
      }
    }
  }

  lemma QuietTail(a: string, rest: string, mark: string)
    requires a != "" && Quiet(a, rest, mark)
    ensures Quiet(a[1..], rest, mark) && !(mark <= a + rest)
  {
    assert (a + rest)[0..] == a + rest;
    forall i | 0 <= i < |a| - 1 ensures !(mark <= (a[1..] + rest)[i..]) {
      assert (a[1..] + rest)[i..] == (a + rest)[i + 1..];
    }
  }

  lemma {:induction false} ReplaceSkips(a: string, rest: string, pat: string, sub: string)
    requires pat != "" && Quiet(a, rest, pat)
    ensures ReplaceAll(a + rest, pat, sub) == a + ReplaceAll(rest, pat, sub)
  {
    var s := a + rest;
    if a == "" {
      assert s == rest;
    } else {
      QuietTail(a, rest, pat);
      ReplaceSkips(a[1..], rest, pat, sub);
      assert s[1..] == a[1..] + rest;
      calc {
        ReplaceAll(s, pat, sub);
        [a[0]] + (a[1..] + ReplaceAll(rest, pat, sub));
        ([a[0]] + a[1..]) + ReplaceAll(rest, pat, sub);
        a + ReplaceAll(rest, pat, sub);
      }
    }
  }

  lemma ReplaceHit(pat: string, rest: string, sub: string)
    requires pat != ""
    ensures ReplaceAll(pat + rest, pat, sub) == sub + ReplaceAll(rest, pat, sub)
  {
    assert (pat + rest)[|pat|..] == rest;
  }

  /** Without an occurrence nothing is replaced. */
  lemma ReplaceNothing(s: string, pat: string, sub: string)
    requires pat != "" && Free(s, pat)
    ensures ReplaceAll(s, pat, sub) == s
  {
    assert s + "" == s;
    ReplaceSkips(s, "", pat, sub);
  }

  lemma FreeOfLonger(s: string, mark: string, pat: string)
    requires Free(s, mark) && mark <= pat
    ensures Free(s, pat)
  {
    forall i | 0 <= i <= |s| ensures !(pat <= s[i..]) {
      PrefixOfPrefix(mark, pat, s[i..]);
    }
  }

  lemma FreeOfChar(s: string, c: char)
    requires c !in s
    ensures Free(s, [c])
  {
    forall i | 0 <= i <= |s| ensures !([c] <= s[i..]) {
      assert i < |s| ==> s[i..][0] == s[i];
    }
  }

  // ---------------------------------------------------------------- texts with holes

  function Fill(lits: seq<string>, fillings: seq<string>): string
    requires |lits| == |fillings| + 1
  {
    if fillings == [] then lits[0]
    else lits[0] + fillings[0] + Fill(lits[1..], fillings[1..])
  }

  lemma {:induction false} FillExtendLast(lits: seq<string>, fillings: seq<string>, more: string)
    requires |lits| == |fillings| + 1
    ensures Fill(lits[|lits| - 1 := lits[|lits| - 1] + more], fillings) == Fill(lits, fillings) + more
  {
    var longer := lits[|lits| - 1 := lits[|lits| - 1] + more];
    if fillings != [] {
      assert longer[0] == lits[0] && longer[1..] == lits[1..][|lits| - 2 := lits[|lits| - 1] + more];
      FillExtendLast(lits[1..], fillings[1..], more);
      var head, rest := lits[0] + fillings[0], Fill(lits[1..], fillings[1..]);
      assert head + (rest + more) == (head + rest) + more;
    }
  }

  lemma {:induction false} FillAddHole(lits: seq<string>, fillings: seq<string>, filling: string)
    requires |lits| == |fillings| + 1
    ensures Fill(lits + [""], fillings + [filling]) == Fill(lits, fillings) + filling
  {
    var ls, fs := lits + [""], fillings + [filling];
    if fillings == [] {
      assert fs[1..] == [] && ls[1..] == [""];
      assert Fill(ls, fs) == lits[0] + filling + "";
    } else {
      assert ls[1..] == lits[1..] + [""] && fs[1..] == fillings[1..] + [filling];
      FillAddHole(lits[1..], fillings[1..], filling);
    }
  }

  /** Hole `j` belongs to token `slots[j]`; the tokens in `done` have already been replaced by their value. */
  ghost function Fillings(slots: seq<nat>, toks: seq<string>, vals: seq<string>, done: set<nat>): (f: seq<string>)
    requires |toks| == |vals| && forall j :: 0 <= j < |slots| ==> slots[j] < |toks|
    ensures |f| == |slots|
  {
    seq(|slots|, j requires 0 <= j < |slots| => if slots[j] in done then vals[slots[j]] else toks[slots[j]])
  }

  ghost function Filled(lits: seq<string>, slots: seq<nat>, toks: seq<string>, vals: seq<string>, done: set<nat>): string
    requires |lits| == |slots| + 1 && |toks| == |vals|
    requires forall j :: 0 <= j < |slots| ==> slots[j] < |toks|
  {
    Fill(lits, Fillings(slots, toks, vals, done))
  }

  lemma FilledStep(lits: seq<string>, slots: seq<nat>, toks: seq<string>, vals: seq<string>, done: set<nat>)
    requires |lits| == |slots| + 1 && |toks| == |vals| && slots != []
    requires forall j :: 0 <= j < |slots| ==> slots[j] < |toks|
    ensures Filled(lits, slots, toks, vals, done)
         == lits[0] + (if slots[0] in done then vals[slots[0]] else toks[slots[0]])
            + Filled(lits[1..], slots[1..], toks, vals, done)
  {
    assert Fillings(slots, toks, vals, done)[1..] == Fillings(slots[1..], toks, vals, done);
  }

  /** Every occurrence of `mark` in the text starts at a hole that still shows its token. */
  ghost predicate Anchored(lits: seq<string>, slots: seq<nat>, toks: seq<string>, vals: seq<string>, done: set<nat>, mark: string)
    requires |lits| == |slots| + 1 && |toks| == |vals|
    requires forall j :: 0 <= j < |slots| ==> slots[j] < |toks|
    decreases |slots|
  {
    if slots == [] then Quiet(lits[0], "", mark)
    else
      var rest := Filled(lits[1..], slots[1..], toks, vals, done);
      var k := slots[0];
      && Quiet(lits[0], (if k in done then vals[k] else toks[k]) + rest, mark)
      && (if k in done then Quiet(vals[k], rest, mark) else toks[k] != "" && Quiet(toks[k][1..], rest, mark))
      && Anchored(lits[1..], slots[1..], toks, vals, done, mark)
  }

  ghost predicate PrefixFree(toks: seq<string>) {
    forall i, j :: 0 <= i < |toks| && 0 <= j < |toks| && i != j ==> !(toks[i] <= toks[j])
  }

  lemma QuietForLonger(a: string, rest: string, mark: string, pat: string)
    requires Quiet(a, rest, mark) && mark <= pat
    ensures Quiet(a, rest, pat)
  {
    forall i | 0 <= i < |a| ensures !(pat <= (a + rest)[i..]) {
      PrefixOfPrefix(mark, pat, (a + rest)[i..]);
    }
  }

  /** One hole: the literal before it is skipped, then the filling is replaced or skipped. */
  lemma ReplaceAtHole(lit: string, shown: string, next: string, rest: string, pat: string, sub: string)
    requires pat != "" && Quiet(lit, shown + rest, pat)
    requires ReplaceAll(shown + rest, pat, sub) == next + ReplaceAll(rest, pat, sub)
    ensures ReplaceAll(lit + shown + rest, pat, sub) == lit + next + ReplaceAll(rest, pat, sub)
  {
    ReplaceSkips(lit, shown + rest, pat, sub);
    assert lit + (shown + rest) == lit + shown + rest;
  }

  /** Replacing one token fills exactly the holes of that token. */
  lemma {:induction false} ReplaceOneToken(
    lits: seq<string>, slots: seq<nat>, toks: seq<string>, vals: seq<string>, done: set<nat>, mark: string, k: nat)
    requires |lits| == |slots| + 1 && |toks| == |vals| && k < |toks| && k !in done
    requires forall j :: 0 <= j < |slots| ==> slots[j] < |toks|
    requires mark != "" && forall j :: 0 <= j < |toks| ==> mark <= toks[j]
    requires PrefixFree(toks)
    requires Anchored(lits, slots, toks, vals, done, mark)
    ensures toks[k] != ""
    ensures ReplaceAll(Filled(lits, slots, toks, vals, done), toks[k], vals[k])
         == Filled(lits, slots, toks, vals, done + {k})
    decreases |slots|
  {
    var pat, sub := toks[k], vals[k];
    assert mark <= pat;
    if slots == [] {
      QuietForLonger(lits[0], "", mark, pat);
      ReplaceSkips(lits[0], "", pat, sub);
      assert lits[0] + "" == lits[0];
    } else {
      var rest := Filled(lits[1..], slots[1..], toks, vals, done);
      var j := slots[0];
      var shown := if j in done then vals[j] else toks[j];
      var next := if j in done + {k} then vals[j] else toks[j];
      assert ReplaceAll(rest, pat, sub) == Filled(lits[1..], slots[1..], toks, vals, done + {k}) by {
        ReplaceOneToken(lits[1..], slots[1..], toks, vals, done, mark, k);
      }
      assert Quiet(lits[0], shown + rest, pat) by {
        QuietForLonger(lits[0], shown + rest, mark, pat);
      }
      assert ReplaceAll(shown + rest, pat, sub) == next + ReplaceAll(rest, pat, sub) by {
        if j == k {
          ReplaceHit(pat, rest, sub);
        } else if j in done {
          QuietForLonger(shown, rest, mark, pat);
          ReplaceSkips(shown, rest, pat, sub);
        } else {
          OtherTokenIsQuiet(toks, j, k, rest, mark);
          ReplaceSkips(shown, rest, pat, sub);
        }
      }
      ReplaceAtHole(lits[0], shown, next, rest, pat, sub);
      FilledStep(lits, slots, toks, vals, done);
      FilledStep(lits, slots, toks, vals, done + {k});
    }
  }

  lemma OtherTokenIsQuiet(toks: seq<string>, j: nat, k: nat, rest: string, mark: string)
    requires j < |toks| && k < |toks| && j != k && PrefixFree(toks)
    requires toks[j] != "" && mark <= toks[k] && Quiet(toks[j][1..], rest, mark)
    ensures Quiet(toks[j], rest, toks[k])
  {
    var tok, pat := toks[j], toks[k];
    QuietForLonger(tok[1..], rest, mark, pat);
    forall i | 0 <= i < |tok| ensures !(pat <= (tok + rest)[i..]) {
      if i == 0 {
        PrefixesOfOne(pat, tok, rest);
        assert (tok + rest)[0..] == tok + rest;
      } else {
        assert (tok + rest)[i..] == (tok[1..] + rest)[i - 1..];
      }
    }
  }

  function ReplaceInOrder(text: string, toks: seq<string>, vals: seq<string>, order: seq<nat>): string
    requires |toks| == |vals| && forall i :: 0 <= i < |order| ==> order[i] < |toks|
    requires forall i :: 0 <= i < |toks| ==> toks[i] != ""
    decreases |order|
  {
    if order == [] then text
    else ReplaceInOrder(ReplaceAll(text, toks[order[0]], vals[order[0]]), toks, vals, order[1..])
  }

  /** An order in which a range over the map of tokens may visit them: every token once. */
  ghost predicate IsOrder(order: seq<nat>, n: nat) {
    && (forall i :: 0 <= i < |order| ==> order[i] < n)
    && (forall i, j :: 0 <= i < j < |order| ==> order[i] != order[j])
    && (forall k: nat :: k < n ==> k in order)
  }

  /** What a range over the map of tokens can leave of a text. */
  ghost predicate Replaced(text: string, toks: seq<string>, vals: seq<string>, out: string)
    requires |toks| == |vals| && forall i :: 0 <= i < |toks| ==> toks[i] != ""
  {
    exists order :: IsOrder(order, |toks|) && out == ReplaceInOrder(text, toks, vals, order)
  }

  /** Visit `i` first, then the others. */
  function FirstThenRest(i: nat, n: nat): (order: seq<nat>)
    requires i < n
    ensures |order| == n && order[0] == i
    ensures IsOrder(order, n)
  {
    var rest := seq(n - 1, k requires 0 <= k < n - 1 => (if k < i then k else k + 1) as nat);
    var order := [i] + rest;
    assert forall k: nat :: k < n ==> k in order by {
      forall k: nat | k < n ensures k in order {
        assert k < i ==> order[1 + k] == k;
        assert k > i ==> order[k] == k;
        assert k == i ==> order[0] == k;
      }
    }
    order
  }

  /** The text stays anchored however many of its tokens have been replaced. */
  ghost predicate AlwaysAnchored(lits: seq<string>, slots: seq<nat>, toks: seq<string>, vals: seq<string>, mark: string)
    requires |lits| == |slots| + 1 && |toks| == |vals|
    requires forall j :: 0 <= j < |slots| ==> slots[j] < |toks|
  {
    forall done: set<nat> :: Anchored(lits, slots, toks, vals, done, mark)
  }

  ghost predicate Marked(toks: seq<string>, mark: string) {
    mark != "" && forall j :: 0 <= j < |toks| ==> mark <= toks[j] && toks[j] != ""
  }

  ghost function AfterOrder(done: set<nat>, order: seq<nat>): set<nat> {
    done + (set k | k in order)
  }

  lemma AfterOrderStep(done: set<nat>, order: seq<nat>)
    requires order != []
    ensures AfterOrder(done + {order[0]}, order[1..]) == AfterOrder(done, order)
  {
    assert order == [order[0]] + order[1..];
  }

  lemma {:induction false} ReplaceRemaining(
    lits: seq<string>, slots: seq<nat>, toks: seq<string>, vals: seq<string>, done: set<nat>, mark: string, order: seq<nat>)
    requires |lits| == |slots| + 1 && |toks| == |vals|
    requires forall j :: 0 <= j < |slots| ==> slots[j] < |toks|
    requires Marked(toks, mark) && PrefixFree(toks)
    requires AlwaysAnchored(lits, slots, toks, vals, mark)
    requires forall i :: 0 <= i < |order| ==> order[i] < |toks| && order[i] !in done
    requires forall i, j :: 0 <= i < j < |order| ==> order[i] != order[j]
    ensures ReplaceInOrder(Filled(lits, slots, toks, vals, done), toks, vals, order)
         == Filled(lits, slots, toks, vals, AfterOrder(done, order))
    decreases |order|
  {
    if order == [] {
      assert AfterOrder(done, order) == done;
    } else {
      var next := done + {order[0]};
      ReplaceOneToken(lits, slots, toks, vals, done, mark, order[0]);
      ReplaceRemaining(lits, slots, toks, vals, next, mark, order[1..]);
      AfterOrderStep(done, order);
    }
  }

  /** Hole `j` filled with the text `slots[j]` selects. */
  function Chosen(slots: seq<nat>, texts: seq<string>): (f: seq<string>)
    requires forall j :: 0 <= j < |slots| ==> slots[j] < |texts|
  {
    seq(|slots|, j requires 0 <= j < |slots| => texts[slots[j]])
  }

  /** Whatever the order, replacing all tokens fills every hole with its own value. */
  lemma ReplaceAllTokens(
    lits: seq<string>, slots: seq<nat>, toks: seq<string>, vals: seq<string>, mark: string, order: seq<nat>)
    requires |lits| == |slots| + 1 && |toks| == |vals|
    requires forall j :: 0 <= j < |slots| ==> slots[j] < |toks|
    requires Marked(toks, mark) && PrefixFree(toks)
    requires AlwaysAnchored(lits, slots, toks, vals, mark)
    requires IsOrder(order, |toks|)
    ensures ReplaceInOrder(Fill(lits, Chosen(slots, toks)), toks, vals, order) == Fill(lits, Chosen(slots, vals))
  {
    ReplaceRemaining(lits, slots, toks, vals, {}, mark, order);
    assert Fillings(slots, toks, vals, {}) == Chosen(slots, toks);
    forall j | 0 <= j < |slots| ensures slots[j] in AfterOrder({}, order) {
      assert slots[j] in order;
    }
    assert Fillings(slots, toks, vals, AfterOrder({}, order)) == Chosen(slots, vals);
  }

  lemma {:induction false} ReplaceInOrderAppend(text: string, toks: seq<string>, vals: seq<string>, order: seq<nat>, k: nat)
    requires |toks| == |vals| && forall i :: 0 <= i < |order| ==> order[i] < |toks|
    requires k < |toks| && forall i :: 0 <= i < |toks| ==> toks[i] != ""
    ensures ReplaceInOrder(text, toks, vals, order + [k])
         == ReplaceAll(ReplaceInOrder(text, toks, vals, order), toks[k], vals[k])
    decreases |order|
  {
    if order == [] {
      assert order + [k] == [k];
    } else {
      assert (order + [k])[1..] == order[1..] + [k];
      ReplaceInOrderAppend(ReplaceAll(text, toks[order[0]], vals[order[0]]), toks, vals, order[1..], k);
    }
  }

  lemma NothingOrdered(text: string, toks: seq<string>, vals: seq<string>)
    requires |toks| == |vals| && forall i :: 0 <= i < |toks| ==> toks[i] != ""
    ensures ReplaceInOrder(text, toks, vals, []) == text
  {
  }

  /** `for token, value := range replacements { text = strings.ReplaceAll(text, token, value) }`: the map is
      visited in an arbitrary order, and the result is that of some order over all the tokens. */
  method ReplaceRange(text: string, replacements: map<string, string>, ghost toks: seq<string>, ghost vals: seq<string>)
    returns (out: string)
    requires |toks| == |vals| && forall i :: 0 <= i < |toks| ==> toks[i] != ""
    requires forall i, j :: 0 <= i < j < |toks| ==> toks[i] != toks[j]
    requires forall i :: 0 <= i < |toks| ==> toks[i] in replacements && replacements[toks[i]] == vals[i]
    requires forall t :: t in replacements ==> t in toks
    ensures Replaced(text, toks, vals, out)
  {
    hide ReplaceAll, ReplaceInOrder;
    ghost var order: seq<nat> := [];
    out := text;
    NothingOrdered(text, toks, vals);
    var todo := replacements.Keys;
    while todo != {}
      invariant todo <= replacements.Keys
      invariant forall i :: 0 <= i < |order| ==> order[i] < |toks|
      invariant forall i, j :: 0 <= i < j < |order| ==> order[i] != order[j]
      invariant forall k: nat :: k < |toks| ==> (toks[k] in todo <==> k !in order)
      invariant out == ReplaceInOrder(text, toks, vals, order)
    {
      var token :| token in todo;
      ghost var k :| 0 <= k < |toks| && toks[k] == token;
      ReplaceInOrderAppend(text, toks, vals, order, k);
      out := ReplaceAll(out, token, replacements[token]);
      order := order + [k];
      todo := todo - {token};
    }
  }
}
