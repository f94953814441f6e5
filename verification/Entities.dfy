/** Reading escaped text the way a browser does, independently of how it was escaped. */
module Entities {
  import opened Text

  /** The character that stands for the entity at the front of a text, and the entity's length. */
  function EntityAt(s: string): (char, nat)
    requires s != ""
    ensures 1 <= EntityAt(s).1 <= |s|
  {
    if "&lt;" <= s then ('<', 4)
    else if "&gt;" <= s then ('>', 4)
    else if "&amp;" <= s then ('&', 5)
    else if "&#39;" <= s then ('\'', 5)
    else if "&#34;" <= s then ('\"', 5)
    else (s[0], 1)
  }

  /** From left to right, every entity is read as its character. */
  function Decode(s: string): string
    decreases |s|
  {
    if s == "" then "" else [EntityAt(s).0] + Decode(s[EntityAt(s).1..])
  }

  /** Nothing in the text can end an attribute or begin a tag. */
  predicate NoMarkup(s: string) {
    '<' !in s && '>' !in s && '\"' !in s && '\'' !in s
  }

  /** An entity is read whatever follows it. */
  lemma EntityFirst(entity: string, c: char, rest: string)
    requires || (entity == "&lt;" && c == '<') || (entity == "&gt;" && c == '>') || (entity == "&amp;" && c == '&')
             || (entity == "&#39;" && c == '\'') || (entity == "&#34;" && c == '\"') || (entity == [c] && c != '&')
    ensures Decode(entity + rest) == [c] + Decode(rest)
  {
    var s := entity + rest;
    assert s[0] == entity[0];
    if entity == [c] {
      assert s[1..] == rest;
    } else {
      assert entity <= s && s[|entity|..] == rest;
      assert s[1] == entity[1] && s[2] == entity[2] && s[3] == entity[3];
    }
  }
}
