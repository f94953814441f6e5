/** Links from references to the anchors of figures and equations. */
module Links {
  import opened Text
  import opened Substitution

  /** What a label refers to: the number shown and the anchor linked to. */
  datatype Reference = Reference(number: string, anchor: string)

  /** The first item that carries the label. */
  function FirstWithLabel<T>(items: seq<T>, labelOf: T -> string, key: string): (r: Option<nat>)
    ensures r.Some? ==> r.value < |items| && labelOf(items[r.value]) == key
    ensures r.Some? ==> forall j :: 0 <= j < r.value ==> labelOf(items[j]) != key
    ensures r.None? ==> forall j :: 0 <= j < |items| ==> labelOf(items[j]) != key
    decreases |items|
  {
    if items == [] then None
    else
      var last := |items| - 1;
      match FirstWithLabel(items[..last], labelOf, key)
      case Some(k) => Some(k)
      case None => if labelOf(items[last]) == key then Some(last) else None
  }

  /** Backslashes and square brackets are escaped in link texts. */
  function EscapeLinkText(text: string): string {
    ReplaceAll(ReplaceAll(ReplaceAll(text, "\\", "\\\\"), "[", "\\["), "]", "\\]")
  }

  lemma EscapeLinkPlain(text: string)
    requires '\\' !in text && '[' !in text && ']' !in text
    ensures EscapeLinkText(text) == text
  {
    FreeOfChar(text, '\\');
    FreeOfChar(text, '[');
    FreeOfChar(text, ']');
    ReplaceNothing(text, "\\", "\\\\");
    ReplaceNothing(text, "[", "\\[");
    ReplaceNothing(text, "]", "\\]");
  }

  // ---------------------------------------------------------------- anchors

  predicate AnchorChar(c: char) {
    'a' <= c <= 'z' || '0' <= c <= '9' || c == '_' || c == '-'
  }

  /** Runs of other characters become one dash. */
  function AnchorText(s: string, lastDash: bool): string {
    if s == "" then ""
    else if AnchorChar(s[0]) then [s[0]] + AnchorText(s[1..], false)
    else (if lastDash then "" else "-") + AnchorText(s[1..], true)
  }

  function PrefixedAnchor(prefix: string, key: string): string {
    var id := TrimChar(AnchorText(Lower(TrimSpace(key)), false), '-');
    prefix + (if id == "" then (if HasSuffix(prefix, "-") then prefix[..|prefix| - 1] else prefix) else id)
  }

  lemma ConcatMiddle(a: string, b: string, c: string)
    ensures a + (b + c) == (a + b) + c
    ensures b == "" ==> a + b == a
  {
  }

  method DashedText(text: string) returns (b: string)
    ensures b == AnchorText(text, false)
  {
    b := "";
    var lastDash := false;
    var i := 0;
    assert text[0..] == text;
    while i < |text|
      invariant i <= |text|
      invariant AnchorText(text, false) == b + AnchorText(text[i..], lastDash)
    {
      ghost var rest := text[i + 1..];
      assert text[i..][0] == text[i] && text[i..][1..] == rest;
      if AnchorChar(text[i]) {
        ConcatMiddle(b, [text[i]], AnchorText(rest, false));
        b := b + [text[i]];
        lastDash := false;
      } else {
        ConcatMiddle(b, if lastDash then "" else "-", AnchorText(rest, true));
        if !lastDash {
          b := b + "-";
          lastDash := true;
        }
      }
      i := i + 1;
    }
  }

  method PrefixedAnchorID(prefix: string, key: string) returns (id: string)
    ensures id == PrefixedAnchor(prefix, key)
  {
    var b := DashedText(Lower(TrimSpace(key)));
    id := TrimChar(b, '-');
    if id == "" {
      id := if HasSuffix(prefix, "-") then prefix[..|prefix| - 1] else prefix;
    }
    id := prefix + id;
  }
}
