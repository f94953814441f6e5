/** The directory of posts: choosing a slug that no other post has, writing the file and removing the old one. */
module PostFiles {
  import opened Text
  import opened FreshNames
  import opened MenuText
  import opened Spelling

  // ---------------------------------------------------------------- slugs

  /** Letters and numbers in the sense of Unicode. */
  type WordTest = char -> bool

  predicate ValidSlug(slug: string, word: WordTest) {
    slug != "" && word(slug[0]) && forall i :: 0 <= i < |slug| ==> word(slug[i]) || slug[i] == '-'
  }

  function Separator(word: WordTest): CharClass { c => !word(c) }

  /** `NormalizeSlug`. */
  function NormalizeSlug(value: string, word: WordTest): string {
    TrimChar(ReplaceRuns(ReplaceRuns(Lower(TrimSpace(value)), Separator(word), '-'), DASH, '-'), '-')
  }

  /** A title gives no slug at all or a valid one. */
  lemma NormalizedSlugValid(value: string, word: WordTest)
    requires !word('-')
    ensures var slug := NormalizeSlug(value, word); slug == "" || (ValidSlug(slug, word) && NoPair(slug, '-'))
  {
    var once := ReplaceRuns(Lower(TrimSpace(value)), Separator(word), '-');
    RunsReplaced(Lower(TrimSpace(value)), Separator(word), '-');
    RunsKept(once, DASH, '-');
    TrimCharKeeps(once, '-', Separator(word));
  }

  /** A letter or number shows as it is in lower case. */
  function SlugLetter(word: WordTest): Speller {
    (c: char) => if word(LowerChar(c)) then Some(LowerChar(c)) else None
  }

  /** The slug is the words of the title in lower case, with one dash between each two. */
  lemma SlugSpells(value: string, word: WordTest)
    requires !word('-') && forall c :: IsSpace(c) ==> !word(c)
    ensures NormalizeSlug(value, word) == Spelt(Words(value, SlugLetter(word)), '-')
  {
    hide TrimSpace, Lower, Words, TrimChar;
    var s, letter := Lower(TrimSpace(value)), SlugLetter(word);
    LowerTwice(word);
    assert Words(s, letter) == Words(value, letter) by {
      WordsOfTrimmed(value, letter);
      WordsOfLower(TrimSpace(value), letter);
    }
    RunsReplaced(s, Separator(word), '-');
    RunsKept(ReplaceRuns(s, Separator(word), '-'), DASH, '-');
    CleanedIsSpelt(s, letter, Separator(word), '-');
  }

  lemma LowerTwice(word: WordTest)
    ensures forall c :: LowerChar(LowerChar(c)) == LowerChar(c)
    ensures forall c :: IsSpace(c) ==> LowerChar(c) == c
  {
  }

  // ---------------------------------------------------------------- choosing a slug

  /** The slug is the first candidate that no file has, not counting the file of the post itself. */
  ghost predicate Chosen(files: set<string>, base: string, original: string, n: nat) {
    FirstFree(files - {original}, base, n)
  }

  ghost predicate ChosenSlug(files: set<string>, base: string, original: string, slug: string) {
    exists n: nat :: Chosen(files, base, original, n) && slug == Candidate(base, n)
  }

  method UniqueContentSlug(files: set<string>, base: string, originalSlug: string, word: WordTest)
    returns (slug: string)
    requires base != ""
    ensures ChosenSlug(files, base, if ValidSlug(originalSlug, word) then originalSlug else "", slug)
    ensures exists n: nat :: 1 <= n <= |files| + 1 && slug == Candidate(base, n)
  {
    var original := originalSlug;
    if !ValidSlug(original, word) {
      original := "";
    }
    var suffix := 0;
    ghost var n := 1;
    while true
      invariant n == suffix + 1
      invariant forall m :: 1 <= m < n ==> Candidate(base, m) in files && Candidate(base, m) != original
      decreases |files| + 1 - suffix
    {
      Pigeonhole(files, base, suffix);
      slug := base;
      if suffix > 0 {
        slug := base + "-" + Decimal(suffix + 1);
      }
      assert slug == Candidate(base, n) && n <= |files| + 1;
      if slug == original {
        assert Chosen(files, base, original, n);
        return;
      }
      if slug !in files {
        assert Chosen(files, base, original, n);
        return;
      }
      suffix := suffix + 1;
      n := n + 1;
    }
  }

  // ---------------------------------------------------------------- saving

  datatype Result = Saved(slug: string) | TitleRequired | InvalidSlug | InvalidDate | NotWritten | NotRemoved

  type Files = map<string, string>

  /** A draft says which post it came from; only a valid slug can name one. */
  function Renamed(originalSlug: string, word: WordTest): string {
    if ValidSlug(TrimSpace(originalSlug), word) then TrimSpace(originalSlug) else ""
  }

  function WithoutOld(files: Files, renamed: string, slug: string): Files {
    if renamed == "" || renamed == slug then files else files - {renamed}
  }

  /** One file is written, under the first slug no other post has; at most the file of the post itself goes. */
  ghost predicate SavedAs(before: Files, after: Files, base: string, renamed: string, slug: string, text: string, removed: bool) {
    && ChosenSlug(before.Keys, base, renamed, slug)
    && after == (if removed then WithoutOld(before, renamed, slug) else before)[slug := text]
  }

  lemma Written(before: Files, base: string, renamed: string, slug: string, text: string)
    requires ChosenSlug(before.Keys, base, renamed, slug)
    ensures SavedAs(before, before[slug := text], base, renamed, slug, text, false)
    ensures renamed == "" || renamed == slug ==> SavedAs(before, before[slug := text], base, renamed, slug, text, true)
    ensures renamed != "" && renamed != slug ==> SavedAs(before, before[slug := text] - {renamed}, base, renamed, slug, text, true)
  {
    hide ChosenSlug;
    if renamed != "" && renamed != slug {
      assert before[slug := text] - {renamed} == (before - {renamed})[slug := text];
    }
  }

  class Directory {
    /** The contents of the post files, by slug. */
    var files: Files

    constructor ()
      ensures files == map[]
    {
      files := map[];
    }

    /** `SavePost`: `content` is the serialised draft, which shows its slug; the other arguments say how reading the
        dates and the two file operations turn out. */
    method SavePost(
      title: string, originalSlug: string, content: string -> string, word: WordTest, datesValid: bool, writes: bool, removes: bool)
      returns (r: Result, ghost slug: string)
      requires !word('-')
      modifies this
      ensures r.TitleRequired? <==> TrimSpace(title) == ""
      ensures r.InvalidSlug? <==> TrimSpace(title) != "" && NormalizeSlug(title, word) == ""
      ensures !r.Saved? && !r.NotRemoved? ==> files == old(files)
      ensures r.Saved? || r.NotRemoved? ==>
        SavedAs(old(files), files, NormalizeSlug(title, word), Renamed(originalSlug, word), slug, content(slug), r.Saved?)
      ensures r.Saved? ==> r.slug == slug
    {
      hide NormalizeSlug, ValidSlug, ChosenSlug, TrimSpace;
      slug := "";
      if TrimSpace(title) == "" {
        return TitleRequired, slug;
      }
      var base := NormalizeSlug(title, word);
      NormalizedSlugValid(title, word);
      if !ValidSlug(base, word) {
        EmptySlugInvalid(word);
        return InvalidSlug, slug;
      }
      if !datesValid {
        EmptySlugInvalid(word);
        return InvalidDate, slug;
      }
      EmptySlugInvalid(word);
      var original := TrimSpace(originalSlug);
      var chosen := UniqueContentSlug(files.Keys, base, original, word);
      slug := chosen;
      if !writes {
        return NotWritten, slug;
      }
      ghost var renamed := Renamed(originalSlug, word);
      files := files[chosen := content(chosen)];
      Written(old(files), base, renamed, chosen, content(chosen));
      if original == "" || original == chosen || !ValidSlug(original, word) {
        return Saved(chosen), slug;
      }
      if !removes {
        return NotRemoved, slug;
      }
      files := files - {original};
      return Saved(chosen), slug;
    }
  }

  lemma EmptySlugInvalid(word: WordTest)
    ensures !ValidSlug("", word)
  {
  }

  /** Saving never touches another post: every file but the written one and the post's own old one is unchanged, and
      the written one is new or the post's own. */
  lemma OtherPostsUnchanged(
    before: Files, after: Files, base: string, renamed: string, slug: string, text: string, removed: bool, other: string)
    requires SavedAs(before, after, base, renamed, slug, text, removed) && base != ""
    ensures slug in before ==> slug == renamed
    ensures other != slug && other != renamed ==> (other in after <==> other in before)
    ensures other != slug && other != renamed && other in before ==> after[other] == before[other]
    ensures after[slug] == text
    ensures removed && renamed != "" && renamed != slug ==> renamed !in after
  {
    hide Candidate;
  }

  lemma SlugOfSaved(
    before: Files, after: Files, base: string, renamed: string, slug: string, text: string, removed: bool)
    requires SavedAs(before, after, base, renamed, slug, text, removed) && base != ""
    ensures slug != "" && (slug in before ==> slug == renamed)
  {
  }

  /** The number of posts grows by one for a new post and stays for an edited one. */
  lemma PostCount(before: Files, after: Files, base: string, renamed: string, slug: string, text: string)
    requires SavedAs(before, after, base, renamed, slug, text, true) && base != ""
    requires renamed == "" || renamed in before
    ensures |after| == |before| + (if renamed == "" then 1 else 0)
  {
    hide Candidate, Chosen;
    SlugOfSaved(before, after, base, renamed, slug, text, true);
    if renamed != "" && renamed != slug {
      assert after.Keys == (before.Keys - {renamed}) + {slug};
    } else {
      assert after.Keys == before.Keys + {slug};
    }
  }

  /** Editing a post and saving it under the same title leaves it at its slug, however many posts share the title. */
  lemma SavingAgainKeepsSlug(
    before: Files, after: Files, base: string, renamed: string, slug: string, text: string, slug': string, again: Files, text': string)
    requires base != "" && SavedAs(before, after, base, renamed, slug, text, true) && slug != ""
    requires SavedAs(after, again, base, slug, slug', text', true)
    ensures slug' == slug && again == after[slug := text']
  {
    hide Candidate;
    var n: nat :| Chosen(before.Keys, base, renamed, n) && slug == Candidate(base, n);
    var n': nat :| Chosen(after.Keys, base, slug, n') && slug' == Candidate(base, n');
    forall m | 1 <= m < n ensures Candidate(base, m) in after.Keys - {slug} {
      if Candidate(base, m) == slug { CandidatesDiffer(base, m, n); }
    }
    FirstFreeUnique(after.Keys - {slug}, base, n, n');
  }
}
