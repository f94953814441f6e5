/** Permalink patterns: validation, expansion into URLs, and finding content by its URL again. */
module Permalinks {
  import opened Text

  datatype Kind = PostKind | PageKind | TagKind

  /** The tokens that stand for the slug, any one of which a pattern must include. */
  function SlugNames(kind: Kind): (names: seq<string>)
    ensures |names| == 2
  {
    match kind
    case PostKind => ["postname", "slug"]
    case PageKind => ["pagename", "slug"]
    case TagKind => ["tag", "slug"]
  }

  function DateNames(kind: Kind): seq<string> {
    if kind == PostKind then ["year", "monthnum", "day"] else []
  }

  function DefaultPattern(kind: Kind): string {
    match kind
    case PostKind => "/posts/%postname%"
    case PageKind => "/pages/%pagename%"
    case TagKind => "/tags/%tag%"
  }

  // ---------------------------------------------------------------- scanning

  /** A pattern is read from left to right as characters and tokens; names are compared in lower case. */
  datatype Piece = Lit(c: char) | Tok(name: string, raw: string)

  predicate WordChar(c: char) {
    'A' <= c <= 'Z' || 'a' <= c <= 'z' || '0' <= c <= '9' || c == '_'
  }

  function WordRun(s: string, i: nat): (n: nat)
    requires i <= |s|
    ensures i + n <= |s|
    decreases |s| - i
  {
    if i == |s| || !WordChar(s[i]) then 0 else 1 + WordRun(s, i + 1)
  }

  /** The end of the token that starts at `i`, as `%([A-Za-z0-9_]+)%` matches it. */
  function TokenEnd(s: string, i: nat): (r: Option<nat>)
    requires i < |s|
    ensures r.Some? ==> i + 2 < r.value <= |s|
  {
    if s[i] != '%' then None
    else
      var n := WordRun(s, i + 1);
      if n > 0 && i + 1 + n < |s| && s[i + 1 + n] == '%' then Some(i + n + 2) else None
  }

  function Scan(s: string, i: nat): seq<Piece>
    requires i <= |s|
    decreases |s| - i
  {
    if i == |s| then []
    else match TokenEnd(s, i)
      case Some(e) => [Tok(Lower(s[i + 1..e - 1]), s[i..e])] + Scan(s, e)
      case None => [Lit(s[i])] + Scan(s, i + 1)
  }

  // ---------------------------------------------------------------- validation

  datatype PatternError = NoLeadingSlash | QueryOrFragment | EmptySegment | DotSegment | NoSlugToken | UnknownToken

  predicate DotSegmentAt(s: string, i: nat) {
    || (i < |s| && s[i] == '/' && (i + 1 < |s| && s[i + 1] == '.' && (i + 2 == |s| || s[i + 2] == '/')))
    || (i < |s| && s[i] == '/' && i + 2 < |s| && s[i + 1] == '.' && s[i + 2] == '.' && (i + 3 == |s| || s[i + 3] == '/'))
  }

  /** The substring test of the validator: it does not ask whether the scan finds the token. */
  predicate MentionsSlug(pattern: string, kind: Kind) {
    exists k :: 0 <= k < |SlugNames(kind)| && Contains(Lower(pattern), "%" + SlugNames(kind)[k] + "%")
  }

  predicate Known(piece: Piece, kind: Kind) {
    piece.Tok? ==> piece.name in SlugNames(kind) + DateNames(kind)
  }

  predicate AllKnown(pieces: seq<Piece>, kind: Kind) {
    forall k :: 0 <= k < |pieces| ==> Known(pieces[k], kind)
  }

  function Validate(pattern: string, kind: Kind): Option<PatternError> {
    if !("/" <= pattern) then Some(NoLeadingSlash)
    else if '?' in pattern || '#' in pattern then Some(QueryOrFragment)
    else if Contains(pattern, "//") then Some(EmptySegment)
    else if exists i :: 0 <= i < |pattern| && DotSegmentAt(pattern, i) then Some(DotSegment)
    else if !MentionsSlug(pattern, kind) then Some(NoSlugToken)
    else if !AllKnown(Scan(pattern, 0), kind) then Some(UnknownToken)
    else None
  }

  /** `normalizePermalinkPattern`: an unusable setting falls back to the default. */
  function EffectivePattern(setting: string, kind: Kind): string {
    var pattern := TrimSpace(setting);
    if pattern == "" || Validate(pattern, kind).Some? then DefaultPattern(kind) else pattern
  }

  // ---------------------------------------------------------------- expansion

  datatype Date = NoDate | Date(year: nat, month: nat, day: nat)

  predicate FourDigitYear(d: Date) {
    d.Date? ==> d.year <= 9999 && 1 <= d.month <= 12 && 1 <= d.day <= 31
  }

  function DateText(name: string, d: Date): string {
    match d
    case NoDate => if name == "year" then "0000" else "00"
    case Date(year, month, day) =>
      if name == "year" then Padded(year, 4) else if name == "monthnum" then Padded(month, 2) else Padded(day, 2)
  }

  predicate IsSlugToken(piece: Piece, kind: Kind) {
    piece.Tok? && piece.name in SlugNames(kind)
  }

  function PieceText(piece: Piece, kind: Kind, slug: string, date: Date): string {
    match piece
    case Lit(c) => [c]
    case Tok(name, raw) =>
      if name in SlugNames(kind) then slug
      else if name in DateNames(kind) then DateText(name, date)
      else raw
  }

  function Expand(pieces: seq<Piece>, kind: Kind, slug: string, date: Date): string {
    if pieces == [] then "" else PieceText(pieces[0], kind, slug, date) + Expand(pieces[1..], kind, slug, date)
  }

  /** `formatPermalink` with the values of a post, page or tag. */
  function Format(pattern: string, kind: Kind, slug: string, date: Date): string {
    var path := Expand(Scan(pattern, 0), kind, slug, date);
    if "/" <= path then path else "/" + path
  }

  function URL(setting: string, kind: Kind, slug: string, date: Date): string {
    Format(EffectivePattern(setting, kind), kind, slug, date)
  }

  // ---------------------------------------------------------------- comparing paths

  function TrimRightSlashes(s: string): string {
    if s != "" && s[|s| - 1] == '/' then TrimRightSlashes(s[..|s| - 1]) else s
  }

  function Comparable(path: string): string {
    var value := TrimSpace(path);
    if value == "" then "/"
    else
      var rooted := if "/" <= value then value else "/" + value;
      var short := if |rooted| > 1 then TrimRightSlashes(rooted) else rooted;
      if short == "" then "/" else short
  }

  // ---------------------------------------------------------------- slugs

  /** What the proofs need of a slug. A valid slug, letters and digits with dashes after the first, is one. */
  predicate PathSafe(slug: string) {
    slug != "" && forall i :: 0 <= i < |slug| ==> slug[i] != '/' && !IsSpace(slug[i])
  }

  predicate HasSlugToken(pieces: seq<Piece>, kind: Kind) {
    exists k :: 0 <= k < |pieces| && IsSlugToken(pieces[k], kind)
  }

  function SlugTokens(pieces: seq<Piece>, kind: Kind): nat {
    if pieces == [] then 0 else (if IsSlugToken(pieces[0], kind) then 1 else 0) + SlugTokens(pieces[1..], kind)
  }

  lemma {:induction false} SlugTokensCount(pieces: seq<Piece>, kind: Kind)
    ensures SlugTokens(pieces, kind) > 0 <==> HasSlugToken(pieces, kind)
  {
    hide IsSlugToken;
    if pieces != [] {
      SlugTokensCount(pieces[1..], kind);
      assert pieces == [pieces[0]] + pieces[1..];
      if HasSlugToken(pieces[1..], kind) {
        var k :| 0 <= k < |pieces[1..]| && IsSlugToken(pieces[1..][k], kind);
        assert IsSlugToken(pieces[k + 1], kind);
      }
    }
  }

  // ---------------------------------------------------------------- injectivity

  lemma DateTextLength(name: string, d: Date)
    requires FourDigitYear(d)
    ensures |DateText(name, d)| == (if name == "year" then 4 else 2)
    ensures forall i :: 0 <= i < |DateText(name, d)| ==> IsDigit(DateText(name, d)[i])
  {
    if d.Date? {
      assert Pow10(1) == 10 && Pow10(2) == 100 && Pow10(3) == 1000 && Pow10(4) == 10000;
      DecimalLength(d.year, 4);
      DecimalLength(d.month, 2);
      DecimalLength(d.day, 2);
    }
  }

  /** All but the slug has the same width whatever the date. */
  function FixedWidth(pieces: seq<Piece>, kind: Kind): nat {
    if pieces == [] then 0
    else
      (match pieces[0]
       case Lit(_) => 1
       case Tok(name, raw) =>
         if name in SlugNames(kind) then 0
         else if name in DateNames(kind) then (if name == "year" then 4 else 2)
         else |raw|)
      + FixedWidth(pieces[1..], kind)
  }

  lemma PieceLength(piece: Piece, kind: Kind, slug: string, date: Date)
    requires FourDigitYear(date)
    ensures |PieceText(piece, kind, slug, date)| == FixedWidth([piece], kind) + (if IsSlugToken(piece, kind) then |slug| else 0)
  {
    assert FixedWidth([piece][1..], kind) == 0;
    if piece.Tok? { DateTextLength(piece.name, date); }
  }

  lemma OneMore(n: nat, k: nat)
    ensures (n + 1) * k == n * k + k
  {
  }

  lemma {:induction false} ExpandLength(pieces: seq<Piece>, kind: Kind, slug: string, date: Date)
    requires FourDigitYear(date)
    ensures |Expand(pieces, kind, slug, date)| == FixedWidth(pieces, kind) + SlugTokens(pieces, kind) * |slug|
  {
    hide PieceText, FourDigitYear, IsSlugToken;
    if pieces != [] {
      ExpandLength(pieces[1..], kind, slug, date);
      PieceLength(pieces[0], kind, slug, date);
      assert FixedWidth(pieces, kind) == FixedWidth([pieces[0]], kind) + FixedWidth(pieces[1..], kind) by {
        assert FixedWidth([pieces[0]][1..], kind) == 0;
      }
      OneMore(SlugTokens(pieces[1..], kind), |slug|);
    }
  }

  /** Slugs of equal length stand in the same places, so equal texts have equal slugs. */
  lemma {:induction false} EqualWidthsAlign(pieces: seq<Piece>, kind: Kind, slug: string, slug': string, date: Date, date': Date)
    requires FourDigitYear(date) && FourDigitYear(date') && |slug| == |slug'|
    requires HasSlugToken(pieces, kind)
    requires Expand(pieces, kind, slug, date) == Expand(pieces, kind, slug', date')
    ensures slug == slug'
    decreases |pieces|
  {
    hide DateText, SlugNames, DateNames;
    var head, head' := PieceText(pieces[0], kind, slug, date), PieceText(pieces[0], kind, slug', date');
    var rest, rest' := Expand(pieces[1..], kind, slug, date), Expand(pieces[1..], kind, slug', date');
    if pieces[0].Tok? {
      DateTextLength(pieces[0].name, date);
      DateTextLength(pieces[0].name, date');
    }
    assert |head| == |head'|;
    assert head == (head + rest)[..|head|] == (head' + rest')[..|head|] == head';
    if !IsSlugToken(pieces[0], kind) {
      assert rest == (head + rest)[|head|..] == (head' + rest')[|head|..] == rest';
      var k :| 0 <= k < |pieces| && IsSlugToken(pieces[k], kind);
      assert pieces[1..][k - 1] == pieces[k];
      EqualWidthsAlign(pieces[1..], kind, slug, slug', date, date');
    }
  }

  lemma Cancel(n: nat, a: nat, b: nat)
    requires n > 0 && n * a == n * b
    ensures a == b
  {
    assert n * (a - b) == n * a - n * b;
  }

  lemma ExpandInjective(pieces: seq<Piece>, kind: Kind, slug: string, slug': string, date: Date, date': Date)
    requires FourDigitYear(date) && FourDigitYear(date') && HasSlugToken(pieces, kind)
    requires Expand(pieces, kind, slug, date) == Expand(pieces, kind, slug', date')
    ensures slug == slug'
  {
    hide *;
    ExpandLength(pieces, kind, slug, date);
    ExpandLength(pieces, kind, slug', date');
    SlugTokensCount(pieces, kind);
    Cancel(SlugTokens(pieces, kind), |slug|, |slug'|);
    EqualWidthsAlign(pieces, kind, slug, slug', date, date');
  }

  // ---------------------------------------------------------------- trailing slashes

  /** The pieces before the slashes the pattern ends with. */
  function Front(pieces: seq<Piece>): seq<Piece> {
    if pieces != [] && pieces[|pieces| - 1] == Lit('/') then Front(pieces[..|pieces| - 1]) else pieces
  }

  lemma {:induction false} ExpandAppend(a: seq<Piece>, b: seq<Piece>, kind: Kind, slug: string, date: Date)
    ensures Expand(a + b, kind, slug, date) == Expand(a, kind, slug, date) + Expand(b, kind, slug, date)
  {
    hide PieceText;
    if a == [] {
      assert a + b == b;
    } else {
      assert (a + b)[1..] == a[1..] + b;
      ExpandAppend(a[1..], b, kind, slug, date);
    }
  }

  lemma ExpandLast(pieces: seq<Piece>, kind: Kind, slug: string, date: Date)
    requires pieces != []
    ensures var last := |pieces| - 1;
            Expand(pieces, kind, slug, date)
            == Expand(pieces[..last], kind, slug, date) + PieceText(pieces[last], kind, slug, date)
  {
    var last := |pieces| - 1;
    assert pieces == pieces[..last] + [pieces[last]];
    ExpandAppend(pieces[..last], [pieces[last]], kind, slug, date);
    assert Expand([pieces[last]][1..], kind, slug, date) == "";
  }

  /** A known token never expands to a text that ends in a slash or in white space. */
  lemma TokenTextEnds(piece: Piece, kind: Kind, slug: string, date: Date)
    requires piece.Tok? && Known(piece, kind) && PathSafe(slug) && FourDigitYear(date)
    ensures var t := PieceText(piece, kind, slug, date);
            t != "" && t[|t| - 1] != '/' && !IsSpace(t[|t| - 1])
  {
    if piece.name !in SlugNames(kind) {
      DateTextLength(piece.name, date);
    }
  }

  lemma {:induction false} FrontExpands(pieces: seq<Piece>, kind: Kind, slug: string, date: Date)
    requires AllKnown(pieces, kind) && PathSafe(slug) && FourDigitYear(date)
    ensures TrimRightSlashes(Expand(pieces, kind, slug, date)) == Expand(Front(pieces), kind, slug, date)
    ensures HasSlugToken(pieces, kind) ==> HasSlugToken(Front(pieces), kind)
    decreases |pieces|
  {
    hide PieceText, Known, SlugNames, DateNames;
    if pieces != [] {
      var last := |pieces| - 1;
      ExpandLast(pieces, kind, slug, date);
      if pieces[last] == Lit('/') {
        LitText('/', kind, slug, date);
        var init := Expand(pieces[..last], kind, slug, date);
        assert (init + "/")[..|init|] == init;
        FrontExpands(pieces[..last], kind, slug, date);
        if k :| 0 <= k < |pieces| && IsSlugToken(pieces[k], kind) {
          assert pieces[..last][k] == pieces[k];
        }
      } else if pieces[last].Tok? {
        TokenTextEnds(pieces[last], kind, slug, date);
      } else {
        LitText(pieces[last].c, kind, slug, date);
      }
    }
  }

  lemma LitText(c: char, kind: Kind, slug: string, date: Date)
    ensures PieceText(Lit(c), kind, slug, date) == [c]
  {
  }

  // ---------------------------------------------------------------- URLs of a valid pattern

  /** What the expansion of the scan has at its two ends, for a trimmed pattern that starts with a slash. */
  lemma {:induction false} ScanLast(s: string, i: nat)
    requires i < |s|
    ensures var pieces := Scan(s, i);
            pieces != [] && (pieces[|pieces| - 1].Lit? ==> pieces[|pieces| - 1].c == s[|s| - 1])
    decreases |s| - i
  {
    hide TokenEnd, Lower;
    var next := match TokenEnd(s, i) case Some(e) => e case None => i + 1;
    var rest := Scan(s, next);
    assert Scan(s, i)[1..] == rest;
    if next < |s| {
      ScanLast(s, next);
      assert Scan(s, i)[|rest|] == rest[|rest| - 1];
    }
  }

  lemma ExpandFirst(pieces: seq<Piece>, kind: Kind, slug: string, date: Date)
    requires pieces != [] && pieces[0] == Lit('/')
    ensures "/" <= Expand(pieces, kind, slug, date)
  {
    LitText('/', kind, slug, date);
  }

  lemma ScanFirst(s: string)
    requires s != "" && s[0] == '/'
    ensures Scan(s, 0) != [] && Scan(s, 0)[0] == Lit('/')
  {
  }

  /** The last character of an expansion, for a pattern whose own last character is not white space. */
  lemma ExpandEnds(pieces: seq<Piece>, kind: Kind, slug: string, date: Date)
    requires pieces != [] && Known(pieces[|pieces| - 1], kind) && PathSafe(slug) && FourDigitYear(date)
    requires pieces[|pieces| - 1].Lit? ==> !IsSpace(pieces[|pieces| - 1].c)
    ensures var url := Expand(pieces, kind, slug, date); url != "" && !IsSpace(url[|url| - 1])
  {
    hide PieceText, Known, PathSafe, FourDigitYear, IsSpace, Expand;
    ExpandLast(pieces, kind, slug, date);
    var last := pieces[|pieces| - 1];
    if last.Lit? {
      LitText(last.c, kind, slug, date);
    } else {
      TokenTextEnds(last, kind, slug, date);
    }
  }

  /** Valid patterns begin with a slash, and so does every URL made of one. */
  lemma FormatIsExpansion(pattern: string, kind: Kind, slug: string, date: Date)
    requires Trimmed(pattern) && Validate(pattern, kind).None?
    requires PathSafe(slug) && FourDigitYear(date)
    ensures Format(pattern, kind, slug, date) == Expand(Scan(pattern, 0), kind, slug, date)
    ensures "/" <= Format(pattern, kind, slug, date) && Trimmed(Format(pattern, kind, slug, date))
  {
    hide Expand, Scan, Known, FourDigitYear, PathSafe, MentionsSlug, DotSegmentAt, Contains, IsSpace;
    var pieces := Scan(pattern, 0);
    ScanFirst(pattern);
    ScanLast(pattern, 0);
    ExpandFirst(pieces, kind, slug, date);
    ExpandEnds(pieces, kind, slug, date);
    assert !IsSpace('/') by { SlashIsNoSpace(); }
  }

  lemma SlashIsNoSpace()
    ensures !IsSpace('/')
  {
  }

  /** URLs are compared by the expansion of the pattern without its final slashes. */
  lemma ComparableURL(pattern: string, kind: Kind, slug: string, date: Date)
    requires Trimmed(pattern) && Validate(pattern, kind).None?
    requires PathSafe(slug) && FourDigitYear(date)
    ensures var front := Expand(Front(Scan(pattern, 0)), kind, slug, date);
            Comparable(Format(pattern, kind, slug, date)) == if front == "" then "/" else front
  {
    hide PieceText, Known, FourDigitYear, MentionsSlug, DotSegmentAt, Contains, Trimmed, PathSafe;
    FormatIsExpansion(pattern, kind, slug, date);
    FrontExpands(Scan(pattern, 0), kind, slug, date);
    var url := Format(pattern, kind, slug, date);
    assert TrimSpace(url) == url;
    if |url| == 1 {
      assert url == "/" && url[..0] == "";
      assert TrimRightSlashes(url) == "";
    }
  }

  lemma {:induction false} SlugShows(pieces: seq<Piece>, kind: Kind, slug: string, date: Date)
    requires HasSlugToken(pieces, kind) && slug != ""
    ensures Expand(pieces, kind, slug, date) != ""
  {
    hide DateText, SlugNames, DateNames;
    if !IsSlugToken(pieces[0], kind) {
      var k :| 0 <= k < |pieces| && IsSlugToken(pieces[k], kind);
      assert pieces[1..][k - 1] == pieces[k];
      SlugShows(pieces[1..], kind, slug, date);
    }
  }

  /** Without a scanned slug token the slug does not show in the URL. */
  lemma {:induction false} SlugHidden(pieces: seq<Piece>, kind: Kind, slug: string, slug': string, date: Date)
    requires !HasSlugToken(pieces, kind)
    ensures Expand(pieces, kind, slug, date) == Expand(pieces, kind, slug', date)
  {
    hide DateText, SlugNames, DateNames;
    if pieces != [] {
      assert !IsSlugToken(pieces[0], kind);
      forall k | 0 <= k < |pieces[1..]| ensures !IsSlugToken(pieces[1..][k], kind) {
        assert pieces[1..][k] == pieces[k + 1];
      }
      SlugHidden(pieces[1..], kind, slug, slug', date);
    }
  }

  /** No two slugs share a URL, not even up to trailing slashes and whatever the dates. */
  ghost predicate SlugsShow(pattern: string, kind: Kind) {
    forall slug, slug', date, date' ::
      && PathSafe(slug)
      && PathSafe(slug')
      && FourDigitYear(date)
      && FourDigitYear(date')
      && Comparable(Format(pattern, kind, slug, date)) == Comparable(Format(pattern, kind, slug', date'))
      ==> slug == slug'
  }

  lemma URLsDiffer(pattern: string, kind: Kind, slug: string, slug': string, date: Date, date': Date)
    requires Trimmed(pattern) && Validate(pattern, kind).None? && HasSlugToken(Scan(pattern, 0), kind)
    requires PathSafe(slug) && PathSafe(slug') && FourDigitYear(date) && FourDigitYear(date')
    requires Comparable(Format(pattern, kind, slug, date)) == Comparable(Format(pattern, kind, slug', date'))
    ensures slug == slug'
  {
    hide Format, Comparable, Validate, Expand, FourDigitYear, Front;
    var pieces := Scan(pattern, 0);
    assert AllKnown(pieces, kind) by { ValidIsKnown(pattern, kind); }
    ComparableURL(pattern, kind, slug, date);
    ComparableURL(pattern, kind, slug', date');
    FrontExpands(pieces, kind, slug, date);
    SlugShows(Front(pieces), kind, slug, date);
    SlugShows(Front(pieces), kind, slug', date');
    ExpandInjective(Front(pieces), kind, slug, slug', date, date');
  }

  lemma ValidIsKnown(pattern: string, kind: Kind)
    requires Validate(pattern, kind).None?
    ensures AllKnown(Scan(pattern, 0), kind)
  {
  }

  /** The URLs of a valid pattern tell all slugs apart exactly when the scan finds a slug token. */
  lemma InjectiveIffSlugToken(pattern: string, kind: Kind)
    requires Trimmed(pattern) && Validate(pattern, kind).None?
    ensures SlugsShow(pattern, kind) <==> HasSlugToken(Scan(pattern, 0), kind)
  {
    hide Format, Comparable, Validate, HasSlugToken;
    if HasSlugToken(Scan(pattern, 0), kind) {
      forall slug, slug', date, date' |
        && PathSafe(slug)
        && PathSafe(slug')
        && FourDigitYear(date)
        && FourDigitYear(date')
        && Comparable(Format(pattern, kind, slug, date)) == Comparable(Format(pattern, kind, slug', date'))
        ensures slug == slug'
      {
        URLsDiffer(pattern, kind, slug, slug', date, date');
      }
    } else {
      OneURLForAll(pattern, kind);
      assert PathSafe("a") && PathSafe("b") && "a"[0] != "b"[0];
    }
  }

  lemma OneURLForAll(pattern: string, kind: Kind)
    requires !HasSlugToken(Scan(pattern, 0), kind)
    ensures Format(pattern, kind, "a", NoDate) == Format(pattern, kind, "b", NoDate)
  {
    SlugHidden(Scan(pattern, 0), kind, "a", "b", NoDate);
  }

  // ---------------------------------------------------------------- what a URL shows

  /** A token stands from `i` up to `e`. */
  ghost predicate TokenAt(s: string, i: nat, e: nat) {
    i + 2 < e <= |s| && s[i] == '%' && s[e - 1] == '%' && forall j :: i < j < e - 1 ==> WordChar(s[j])
  }

  function Source(piece: Piece): string {
    match piece case Lit(c) => [c] case Tok(_, raw) => raw
  }

  function Sources(pieces: seq<Piece>): string {
    if pieces == [] then "" else Source(pieces[0]) + Sources(pieces[1..])
  }

  /** The pieces are the tokens of the text, each read where it starts, and its other characters. */
  ghost predicate Reads(s: string, i: nat, pieces: seq<Piece>)
    requires i <= |s|
    decreases |pieces|
  {
    if pieces == [] then i == |s|
    else
      var e := i + |Source(pieces[0])|;
      && i < e <= |s|
      && s[i..e] == Source(pieces[0])
      && (match pieces[0]
          case Lit(_) => forall e' :: !TokenAt(s, i, e')
          case Tok(name, raw) => TokenAt(s, i, e) && name == Lower(raw[1..|raw| - 1]))
      && Reads(s, e, pieces[1..])
  }

  lemma {:induction false} WordRunEnds(s: string, i: nat)
    requires i <= |s|
    ensures var n := WordRun(s, i);
            (forall j :: i <= j < i + n ==> WordChar(s[j])) && (i + n < |s| ==> !WordChar(s[i + n]))
    decreases |s| - i
  {
    hide WordChar;
    if i < |s| && WordChar(s[i]) { WordRunEnds(s, i + 1); }
  }

  lemma TokenEndIs(s: string, i: nat)
    requires i < |s|
    ensures match TokenEnd(s, i) case Some(e) => TokenAt(s, i, e) case None => forall e :: !TokenAt(s, i, e)
  {
    if s[i] == '%' {
      WordRunEnds(s, i + 1);
      assert !WordChar('%');
    }
  }

  lemma {:induction false} ScanReads(s: string, i: nat)
    requires i <= |s|
    ensures Reads(s, i, Scan(s, i))
    decreases |s| - i
  {
    hide TokenAt, TokenEnd, Lower, Reads, Scan;
    ScanEnds(s);
    if i < |s| {
      TokenEndIs(s, i);
      match TokenEnd(s, i)
      case Some(e) =>
        ScanReads(s, e);
        TokenScanned(s, i, e);
        assert s[i..e][1..|s[i..e]| - 1] == s[i + 1..e - 1];
        ReadsMore(s, i, Tok(Lower(s[i + 1..e - 1]), s[i..e]), Scan(s, e));
      case None =>
        ScanReads(s, i + 1);
        CharScanned(s, i);
        ReadsMore(s, i, Lit(s[i]), Scan(s, i + 1));
    }
  }

  lemma ScanEnds(s: string)
    ensures Scan(s, |s|) == [] && Reads(s, |s|, [])
  {
  }

  lemma CharScanned(s: string, i: nat)
    requires i < |s| && TokenEnd(s, i).None?
    ensures Scan(s, i) == [Lit(s[i])] + Scan(s, i + 1)
  {
  }

  lemma ReadsMore(s: string, i: nat, piece: Piece, rest: seq<Piece>)
    requires var e := i + |Source(piece)|;
             && i < e <= |s|
             && s[i..e] == Source(piece)
             && Reads(s, e, rest)
             && match piece
                case Lit(_) => forall e' :: !TokenAt(s, i, e')
                case Tok(name, raw) => TokenAt(s, i, e) && name == Lower(raw[1..|raw| - 1])
    ensures Reads(s, i, [piece] + rest)
  {
    hide TokenAt, Lower;
    assert ([piece] + rest)[1..] == rest;
  }

  /** The room a piece takes in a URL. */
  function Width(piece: Piece, slugWidth: nat): nat {
    if piece.Lit? then 1
    else if piece.name == "year" then 4
    else if piece.name in ["monthnum", "day"] then 2
    else slugWidth
  }

  /** Where piece number `k` stands: after the pieces before it. */
  function Place(pieces: seq<Piece>, slugWidth: nat, k: nat): nat
    requires k <= |pieces|
  {
    if k == 0 then 0 else Place(pieces, slugWidth, k - 1) + Width(pieces[k - 1], slugWidth)
  }

  /** The digits at this place have this value. */
  ghost predicate ShowsNumber(url: string, at: nat, width: nat, n: nat) {
    && at + width <= |url|
    && (forall j :: at <= j < at + width ==> IsDigit(url[j]))
    && DecimalValue(url[at..at + width]) == n
  }

  /** A character stands for itself, a date token for its field of the date, any other token for the slug. */
  ghost predicate ShowsPiece(url: string, at: nat, piece: Piece, slug: string, date: Date) {
    match piece
    case Lit(c) => At(url, at, [c])
    case Tok(name, _) =>
      if name == "year" then ShowsNumber(url, at, 4, if date.NoDate? then 0 else date.year)
      else if name == "monthnum" then ShowsNumber(url, at, 2, if date.NoDate? then 0 else date.month)
      else if name == "day" then ShowsNumber(url, at, 2, if date.NoDate? then 0 else date.day)
      else At(url, at, slug)
  }

  ghost predicate ShowsPieces(url: string, pieces: seq<Piece>, slug: string, date: Date) {
    && |url| == Place(pieces, |slug|, |pieces|)
    && forall k :: 0 <= k < |pieces| ==> ShowsPiece(url, Place(pieces, |slug|, k), pieces[k], slug, date)
  }

  /** The URL shows the pattern piece by piece. */
  ghost predicate Shows(url: string, pattern: string, slug: string, date: Date) {
    exists pieces :: Reads(pattern, 0, pieces) && ShowsPieces(url, pieces, slug, date)
  }

  lemma PieceShown(piece: Piece, kind: Kind, slug: string, date: Date)
    requires Known(piece, kind) && FourDigitYear(date)
    ensures var t := PieceText(piece, kind, slug, date);
            |t| == Width(piece, |slug|) && ShowsPiece(t, 0, piece, slug, date)
  {
    if piece.Tok? {
      if piece.name in SlugNames(kind) {
        SlugIsNoDate(piece.name, kind);
      } else {
        DateTextLength(piece.name, date);
        DateShown(piece.name, date);
      }
    }
  }

  lemma SlugIsNoDate(name: string, kind: Kind)
    requires name in SlugNames(kind)
    ensures name !in ["year", "monthnum", "day"]
  {
    assert name[0] in "pst";
  }

  lemma DateShown(name: string, date: Date)
    requires FourDigitYear(date) && name in ["year", "monthnum", "day"]
    ensures var t := DateText(name, date);
            ShowsNumber(t, 0, if name == "year" then 4 else 2,
                        if date.NoDate? then 0
                        else if name == "year" then date.year
                        else if name == "monthnum" then date.month else date.day)
  {
    DateTextLength(name, date);
    var t := DateText(name, date);
    assert t[0..|t|] == t;
    if date.Date? {
      PaddedRoundTrip(date.year, 4);
      PaddedRoundTrip(date.month, 2);
      PaddedRoundTrip(date.day, 2);
    } else {
      NoDateIsZero();
    }
  }

  lemma NoDateIsZero()
    ensures DecimalValue("0000") == 0 && DecimalValue("00") == 0
  {
    assert "0000"[..3] == "000" && "000"[..2] == "00" && "00"[..1] == "0" && "0"[..0] == "";
  }

  lemma ShownWithin(before: string, text: string, after: string, piece: Piece, slug: string, date: Date)
    requires ShowsPiece(text, 0, piece, slug, date) && |text| == Width(piece, |slug|)
    ensures ShowsPiece(before + text + after, |before|, piece, slug, date)
  {
    hide DecimalValue, IsDigit;
    var url, at := before + text + after, |before|;
    assert url[at..at + |text|] == text == text[0..|text|];
    forall j | at <= j < at + |text| ensures url[j] == text[j - at] {
    }
  }

  lemma {:induction false} PlaceIsLength(pieces: seq<Piece>, k: nat, kind: Kind, slug: string, date: Date)
    requires k <= |pieces| && AllKnown(pieces, kind) && FourDigitYear(date)
    ensures |Expand(pieces[..k], kind, slug, date)| == Place(pieces, |slug|, k)
  {
    hide Known, FourDigitYear, PieceText, Width;
    if k > 0 {
      PlaceIsLength(pieces, k - 1, kind, slug, date);
      ExpandLast(pieces[..k], kind, slug, date);
      assert pieces[..k][..k - 1] == pieces[..k - 1];
      PieceShown(pieces[k - 1], kind, slug, date);
    }
  }

  lemma ExpandAround(pieces: seq<Piece>, k: nat, kind: Kind, slug: string, date: Date)
    requires k < |pieces|
    ensures Expand(pieces, kind, slug, date)
         == Expand(pieces[..k], kind, slug, date) + PieceText(pieces[k], kind, slug, date)
            + Expand(pieces[k + 1..], kind, slug, date)
  {
    hide PieceText;
    assert pieces == pieces[..k] + pieces[k..];
    ExpandAppend(pieces[..k], pieces[k..], kind, slug, date);
    assert pieces[k..][1..] == pieces[k + 1..];
  }

  lemma ExpandShows(pieces: seq<Piece>, kind: Kind, slug: string, date: Date)
    requires AllKnown(pieces, kind) && FourDigitYear(date)
    ensures ShowsPieces(Expand(pieces, kind, slug, date), pieces, slug, date)
  {
    hide Known, FourDigitYear, PieceText, Width, Expand, ShowsPiece, Place;
    var url := Expand(pieces, kind, slug, date);
    PlaceIsLength(pieces, |pieces|, kind, slug, date);
    assert pieces[..|pieces|] == pieces;
    forall k | 0 <= k < |pieces| ensures ShowsPiece(url, Place(pieces, |slug|, k), pieces[k], slug, date) {
      PlaceIsLength(pieces, k, kind, slug, date);
      ExpandAround(pieces, k, kind, slug, date);
      PieceShown(pieces[k], kind, slug, date);
      ShownWithin(Expand(pieces[..k], kind, slug, date), PieceText(pieces[k], kind, slug, date),
                  Expand(pieces[k + 1..], kind, slug, date), pieces[k], slug, date);
    }
  }

  /** Every piece of a valid pattern shows at its place in the URL. */
  lemma URLShows(pattern: string, kind: Kind, slug: string, date: Date)
    requires Validate(pattern, kind).None? && FourDigitYear(date)
    ensures Shows(Format(pattern, kind, slug, date), pattern, slug, date)
  {
    hide Expand, Scan, Known, FourDigitYear, MentionsSlug, DotSegmentAt, Contains, ShowsPieces, Reads;
    var pieces := Scan(pattern, 0);
    ScanFirst(pattern);
    ExpandFirst(pieces, kind, slug, date);
    ScanReads(pattern, 0);
    ExpandShows(pieces, kind, slug, date);
  }

  /** A text has one reading. */
  lemma {:induction false} OneReading(s: string, i: nat, pieces: seq<Piece>, pieces': seq<Piece>)
    requires i <= |s| && Reads(s, i, pieces) && Reads(s, i, pieces')
    ensures pieces == pieces'
    decreases |pieces|
  {
    hide WordChar, Lower;
    if pieces != [] {
      assert pieces' != [];
      var e, e' := i + |Source(pieces[0])|, i + |Source(pieces'[0])|;
      OneTokenEnd(s, i);
      assert pieces[0] == pieces'[0];
      OneReading(s, e, pieces[1..], pieces'[1..]);
    }
  }

  lemma OneTokenEnd(s: string, i: nat)
    ensures forall e, e' :: TokenAt(s, i, e) && TokenAt(s, i, e') ==> e == e'
  {
    assert !WordChar('%');
  }

  // ---------------------------------------------------------------- which patterns are valid

  function OwnName(kind: Kind): string {
    match kind case PostKind => "postname" case PageKind => "pagename" case TagKind => "tag"
  }

  /** The segments of a rooted path: none is empty but the first and perhaps the last, and none is dots. */
  ghost predicate SegmentsFit(pattern: string) {
    var segments := SplitOn(pattern, '/');
    && |segments| > 1
    && segments[0] == ""
    && (forall k :: 0 < k < |segments| - 1 ==> segments[k] != "")
    && (forall k :: 0 < k < |segments| ==> !Dots(segments[k]))
  }

  predicate Dots(segment: string) { segment == "." || segment == ".." }

  ghost predicate ShowsSlugName(pattern: string, kind: Kind) {
    exists i :: 0 <= i < |pattern| && (At(Lower(pattern), i, "%" + OwnName(kind) + "%") || At(Lower(pattern), i, "%slug%"))
  }

  /** A rooted path with no empty segment but a last one, no dot segment, no query or fragment; a slug token among
      its characters and no token but those of its kind. */
  ghost predicate WellFormed(pattern: string, kind: Kind) {
    && SegmentsFit(pattern)
    && (forall i :: 0 <= i < |pattern| ==> pattern[i] != '?' && pattern[i] != '#')
    && ShowsSlugName(pattern, kind)
    && forall pieces :: Reads(pattern, 0, pieces) ==> NamesFit(pieces, kind)
  }

  predicate NamesFit(pieces: seq<Piece>, kind: Kind) {
    forall k :: 0 <= k < |pieces| && pieces[k].Tok? ==>
      || pieces[k].name == OwnName(kind)
      || pieces[k].name == "slug"
      || (kind == PostKind && pieces[k].name in ["year", "monthnum", "day"])
  }

  lemma {:induction false} RootedSplit(s: string)
    ensures "/" <= s <==> |SplitOn(s, '/')| > 1 && SplitOn(s, '/')[0] == ""
  {
  }

  lemma {:induction false} EmptySegments(s: string)
    ensures Contains(s, "//") <==> exists k :: 0 < k < |SplitOn(s, '/')| - 1 && SplitOn(s, '/')[k] == ""
  {
    var segments := SplitOn(s, '/');
    if s != "" {
      var rest := SplitOn(s[1..], '/');
      EmptySegments(s[1..]);
      RootedSplit(s[1..]);
      ContainsStep(s);
      assert forall k :: 0 < k < |rest| ==> rest[k] == segments[if s[0] == '/' then k + 1 else k];
      if s[0] == '/' {
        assert segments[1] == rest[0];
        if k :| 0 < k < |segments| - 1 && segments[k] == "" {
          if k > 1 { assert rest[k - 1] == ""; }
        }
      }
    }
  }

  lemma ContainsStep(s: string)
    requires s != ""
    ensures Contains(s, "//") <==> (s[0] == '/' && "/" <= s[1..]) || Contains(s[1..], "//")
  {
    assert s[0..] == s;
    if s[0] == '/' && "/" <= s[1..] { assert "//" <= s[0..]; }
    if Contains(s[1..], "//") {
      var i :| 0 <= i <= |s[1..]| && "//" <= s[1..][i..];
      assert s[1..][i..] == s[i + 1..];
    }
    if Contains(s, "//") {
      var i :| 0 <= i <= |s| && "//" <= s[i..];
      if i > 0 { assert s[1..][i - 1..] == s[i..]; } else { assert s[1] == s[i..][1]; }
    }
  }

  /** The first segment is dots. */
  lemma DotsFirst(s: string)
    ensures Dots(SplitOn(s, '/')[0])
       <==> (|s| > 0 && s[0] == '.' && (|s| == 1 || s[1] == '/'))
            || (|s| > 1 && s[0] == '.' && s[1] == '.' && (|s| == 2 || s[2] == '/'))
  {
    FirstSegment(s);
    if |s| > 0 { FirstSegment(s[1..]); }
    if |s| > 1 { assert s[1..][1..] == s[2..]; FirstSegment(s[2..]); }
  }

  lemma FirstSegment(s: string)
    ensures var first := SplitOn(s, '/')[0];
            if s == "" || s[0] == '/' then first == "" else first == [s[0]] + SplitOn(s[1..], '/')[0]
  {
  }

  lemma {:induction false} DotSegments(s: string)
    ensures (exists i :: 0 <= i < |s| && DotSegmentAt(s, i))
       <==> exists k :: 0 < k < |SplitOn(s, '/')| && Dots(SplitOn(s, '/')[k])
  {
    var segments := SplitOn(s, '/');
    if s != "" {
      hide Dots;
      var rest := SplitOn(s[1..], '/');
      DotSegments(s[1..]);
      DotsFirst(s[1..]);
      DotStep(s);
      assert forall k :: 0 < k < |rest| ==> rest[k] == segments[if s[0] == '/' then k + 1 else k];
      if s[0] == '/' {
        assert segments[1] == rest[0];
        if k :| 0 < k < |segments| && Dots(segments[k]) {
          if k > 1 { assert Dots(rest[k - 1]); }
        }
      }
    }
  }

  lemma DotStep(s: string)
    requires s != ""
    ensures (exists i :: 0 <= i < |s| && DotSegmentAt(s, i))
       <==> DotSegmentAt(s, 0) || exists i :: 0 <= i < |s[1..]| && DotSegmentAt(s[1..], i)
  {
    forall i | 0 <= i < |s| - 1 ensures DotSegmentAt(s[1..], i) == DotSegmentAt(s, i + 1) {
      DotShift(s, i);
    }
    if i :| 0 <= i < |s| && DotSegmentAt(s, i) {
      if i > 0 { assert DotSegmentAt(s[1..], i - 1); }
    }
  }

  lemma DotShift(s: string, i: nat)
    requires i + 1 < |s|
    ensures DotSegmentAt(s[1..], i) == DotSegmentAt(s, i + 1)
  {
    assert forall j :: 0 <= j < |s[1..]| ==> s[1..][j] == s[j + 1];
  }

  lemma ContainsAt(s: string, part: string)
    requires part != ""
    ensures Contains(s, part) <==> exists i :: 0 <= i < |s| && At(s, i, part)
  {
    if i :| 0 <= i < |s| && At(s, i, part) {
      assert s[i..][..|part|] == s[i..i + |part|];
      assert part <= s[i..];
    }
    if i :| 0 <= i <= |s| && part <= s[i..] {
      assert s[i..][..|part|] == s[i..i + |part|];
      assert At(s, i, part);
    }
  }

  lemma MentionsIs(pattern: string, kind: Kind)
    ensures MentionsSlug(pattern, kind) <==> ShowsSlugName(pattern, kind)
  {
    hide Lower, At, Contains;
    ContainsAt(Lower(pattern), "%" + OwnName(kind) + "%");
    ContainsAt(Lower(pattern), "%slug%");
    assert SlugNames(kind)[0] == OwnName(kind) && SlugNames(kind)[1] == "slug";
    assert "%" + "slug" + "%" == "%slug%";
    assert |Lower(pattern)| == |pattern| by { LowerLength(pattern); }
  }

  lemma LowerLength(s: string)
    ensures |Lower(s)| == |s|
  {
  }

  lemma TokensKnown(pattern: string, kind: Kind)
    ensures AllKnown(Scan(pattern, 0), kind)
       <==> forall pieces :: Reads(pattern, 0, pieces) ==> NamesFit(pieces, kind)
  {
    hide Reads, Scan;
    ScanReads(pattern, 0);
    forall pieces | Reads(pattern, 0, pieces) ensures pieces == Scan(pattern, 0) {
      OneReading(pattern, 0, pieces, Scan(pattern, 0));
    }
  }

  lemma SegmentsFitIff(pattern: string)
    ensures SegmentsFit(pattern)
       <==> "/" <= pattern && !Contains(pattern, "//") && !exists i :: 0 <= i < |pattern| && DotSegmentAt(pattern, i)
  {
    hide SplitOn, Contains, DotSegmentAt, Dots;
    RootedSplit(pattern);
    EmptySegments(pattern);
    DotSegments(pattern);
  }

  /** The validator accepts exactly the well-formed patterns. */
  lemma ValidIffWellFormed(pattern: string, kind: Kind)
    ensures Validate(pattern, kind).None? <==> WellFormed(pattern, kind)
  {
    hide MentionsSlug, ShowsSlugName, AllKnown, SegmentsFit, NamesFit, DotSegmentAt, Contains;
    SegmentsFitIff(pattern);
    MentionsIs(pattern, kind);
    TokensKnown(pattern, kind);
  }

  // ---------------------------------------------------------------- the two kinds of pattern exist

  lemma {:induction false} WordThenPercent(s: string, i: nat, n: nat)
    requires i + n < |s| && s[i + n] == '%' && forall j :: i <= j < i + n ==> WordChar(s[j])
    ensures WordRun(s, i) == n
    decreases n
  {
    if n > 0 { WordThenPercent(s, i + 1, n - 1); }
  }

  predicate WordName(name: string) {
    name != "" && forall j :: 0 <= j < |name| ==> WordChar(name[j]) && LowerChar(name[j]) == name[j]
  }

  lemma TokenParts(s: string, i: nat, name: string)
    requires i <= |s| && "%" + name + "%" <= s[i..]
    ensures i + |name| + 2 <= |s| && s[i] == '%' && s[i + 1..i + 1 + |name|] == name && s[i + 1 + |name|] == '%'
    ensures s[i..i + |name| + 2] == "%" + name + "%"
  {
    var token := "%" + name + "%";
    forall j | 0 <= j < |token| ensures s[i + j] == token[j] {
      assert s[i..][..|token|][j] == s[i..][j];
    }
  }

  /** A word between percent signs is a token. */
  lemma ScanToken(s: string, i: nat, name: string)
    requires i <= |s| && WordName(name) && "%" + name + "%" <= s[i..]
    ensures Scan(s, i) == [Tok(name, "%" + name + "%")] + Scan(s, i + |name| + 2)
  {
    hide WordChar, LowerChar, Lower, Scan, TokenEnd;
    TokenParts(s, i, name);
    TokenEndsThere(s, i, name);
    LowerOfFixed(name);
    TokenScanned(s, i, i + |name| + 2);
    assert s[i + 1..i + |name| + 1] == name;
  }

  lemma TokenScanned(s: string, i: nat, e: nat)
    requires i < |s| && TokenEnd(s, i) == Some(e)
    ensures Scan(s, i) == [Tok(Lower(s[i + 1..e - 1]), s[i..e])] + Scan(s, e)
  {
  }

  lemma TokenEndsThere(s: string, i: nat, name: string)
    requires i <= |s| && WordName(name) && "%" + name + "%" <= s[i..]
    ensures i < |s| && TokenEnd(s, i) == Some(i + |name| + 2)
  {
    hide WordChar, LowerChar, WordRun;
    TokenParts(s, i, name);
    forall j | i + 1 <= j < i + 1 + |name| ensures WordChar(s[j]) {
      assert s[j] == s[i + 1..i + 1 + |name|][j - i - 1];
    }
    WordThenPercent(s, i + 1, |name|);
  }

  function Plain(s: string): (pieces: seq<Piece>)
    ensures |pieces| == |s| && forall k :: 0 <= k < |s| ==> pieces[k] == Lit(s[k])
  {
    seq(|s|, k requires 0 <= k < |s| => Lit(s[k]))
  }

  lemma ScanChar(s: string, i: nat)
    requires i < |s| && s[i] != '%'
    ensures Scan(s, i) == [Lit(s[i])] + Scan(s, i + 1)
  {
  }

  lemma PlainStep(s: string, i: nat, n: nat)
    requires 0 < n && i + n <= |s|
    ensures Plain(s[i..i + n]) == [Lit(s[i])] + Plain(s[i + 1..i + n])
  {
  }

  lemma {:induction false} ScanPlain(s: string, i: nat, n: nat)
    requires i + n <= |s| && forall j :: i <= j < i + n ==> s[j] != '%'
    ensures Scan(s, i) == Plain(s[i..i + n]) + Scan(s, i + n)
    decreases n
  {
    hide Scan, TokenEnd, Plain;
    if n > 0 {
      ScanPlain(s, i + 1, n - 1);
      ScanChar(s, i);
      PlainStep(s, i, n);
      var head, middle, rest := [Lit(s[i])], Plain(s[i + 1..i + n]), Scan(s, i + n);
      assert head + (middle + rest) == (head + middle) + rest;
    }
  }

  /** Text without a percent sign, then one token. */
  lemma ScanTokenAtEnd(text: string, name: string)
    requires '%' !in text && WordName(name)
    ensures Scan(text + ("%" + name + "%"), 0) == Plain(text) + [Tok(name, "%" + name + "%")]
  {
    hide WordChar, LowerChar, Plain;
    var s := text + ("%" + name + "%");
    ScanPlain(s, 0, |text|);
    assert s[0..|text|] == text && s[|text|..] == "%" + name + "%";
    ScanToken(s, |text|, name);
    assert Scan(s, |s|) == [];
  }

  function DefaultPrefix(kind: Kind): string {
    match kind case PostKind => "/posts/" case PageKind => "/pages/" case TagKind => "/tags/"
  }

  lemma SlugNameIsWord(kind: Kind)
    ensures WordName(SlugNames(kind)[0])
  {
    match kind
    case PostKind => assert SlugNames(kind)[0] == "postname";
    case PageKind => assert SlugNames(kind)[0] == "pagename";
    case TagKind => assert SlugNames(kind)[0] == "tag";
  }

  lemma DefaultParts(kind: Kind)
    ensures DefaultPattern(kind) == DefaultPrefix(kind) + ("%" + SlugNames(kind)[0] + "%")
    ensures '%' !in DefaultPrefix(kind)
  {
    match kind
    case PostKind => assert SlugNames(kind)[0] == "postname";
    case PageKind => assert SlugNames(kind)[0] == "pagename";
    case TagKind => assert SlugNames(kind)[0] == "tag";
  }

  /** What the validator asks of single characters. */
  predicate CleanCharacters(p: string) {
    && "/" <= p
    && Trimmed(p)
    && '?' !in p
    && '#' !in p
    && '.' !in p
    && forall i :: 0 <= i < |p| - 1 ==> !(p[i] == '/' && p[i + 1] == '/')
  }

  lemma PostShape()
    ensures CleanCharacters("/posts/%postname%")
  {
  }

  lemma PageShape()
    ensures CleanCharacters("/pages/%pagename%")
  {
  }

  lemma TagShape()
    ensures CleanCharacters("/tags/%tag%")
  {
  }

  lemma DefaultShape(kind: Kind)
    ensures CleanCharacters(DefaultPattern(kind))
  {
    hide CleanCharacters;
    PostShape();
    PageShape();
    TagShape();
  }

  lemma NoDots(pattern: string)
    requires '.' !in pattern
    ensures forall i :: 0 <= i < |pattern| ==> !DotSegmentAt(pattern, i)
  {
  }

  lemma DefaultScan(kind: Kind)
    ensures Scan(DefaultPattern(kind), 0) == Plain(DefaultPrefix(kind)) + [Tok(SlugNames(kind)[0], "%" + SlugNames(kind)[0] + "%")]
  {
    hide *;
    var name := SlugNames(kind)[0];
    DefaultParts(kind);
    SlugNameIsWord(kind);
    ScanTokenAtEnd(DefaultPrefix(kind), name);
  }

  lemma NoDoubleSlash(s: string)
    requires forall i :: 0 <= i < |s| - 1 ==> !(s[i] == '/' && s[i + 1] == '/')
    ensures !Contains(s, "//")
  {
    forall i | 0 <= i <= |s| ensures !("//" <= s[i..]) {
      if i + 2 <= |s| { assert s[i..][0] == s[i] && s[i..][1] == s[i + 1]; }
    }
  }

  lemma TokenIsLower(name: string)
    requires WordName(name)
    ensures Lower("%" + name + "%") == "%" + name + "%"
  {
    hide Lower, WordChar, LowerChar;
    LowerAppend("%" + name, "%");
    LowerAppend("%", name);
    LowerOfFixed(name);
    PercentIsLower();
  }

  lemma MentionsToken(pattern: string, kind: Kind, before: string, after: string)
    requires pattern == before + ("%" + SlugNames(kind)[0] + "%") + after
    requires WordName(SlugNames(kind)[0])
    ensures MentionsSlug(pattern, kind)
  {
    hide WordChar, LowerChar, Lower, WordName;
    var token := "%" + SlugNames(kind)[0] + "%";
    LowerAppend(before + token, after);
    LowerAppend(before, token);
    TokenIsLower(SlugNames(kind)[0]);
    assert Lower(pattern)[|before|..] == token + Lower(after);
    assert token <= Lower(pattern)[|before|..];
  }

  lemma PercentIsLower()
    ensures Lower("%") == "%"
  {
  }

  /** The default patterns are valid and their scan finds the slug token. */
  lemma DefaultsAreUsable(kind: Kind)
    ensures var pattern := DefaultPattern(kind);
            && Trimmed(pattern)
            && Validate(pattern, kind).None?
            && HasSlugToken(Scan(pattern, 0), kind)
  {
    hide Scan, MentionsSlug, Contains, Plain, DefaultPattern, DefaultPrefix, SlugNames, DotSegmentAt, Trimmed, WordName;
    var pattern, name := DefaultPattern(kind), SlugNames(kind)[0];
    DefaultScan(kind);
    DefaultShape(kind);
    NoDots(pattern);
    DefaultParts(kind);
    SlugNameIsWord(kind);
    assert name in SlugNames(kind);
    assert IsSlugToken(Scan(pattern, 0)[|DefaultPrefix(kind)|], kind);
    NoDoubleSlash(pattern);
    assert pattern == DefaultPrefix(kind) + ("%" + name + "%") + "";
    MentionsToken(pattern, kind, DefaultPrefix(kind), "");
  }

  /** This pattern passes validation, yet all posts get one URL: `%year%` takes the percent sign that
      `%postname%` would need. */
  const OVERLAPPING := "/%year%postname%"

  lemma OverlappingParts()
    ensures |OVERLAPPING| == 16 && OVERLAPPING[0..1] == "/" && OVERLAPPING[7..15] == "postname" && OVERLAPPING[15] == '%'
    ensures "%" + "year" + "%" <= OVERLAPPING[1..]
    ensures forall i :: 0 <= i < 1 || 7 <= i < 15 ==> OVERLAPPING[i] != '%'
    ensures OVERLAPPING == "/%year" + ("%" + "postname" + "%") + ""
    ensures SlugNames(PostKind)[0] == "postname"
    ensures WordName("year")
  {
  }

  lemma OverlappingScan()
    ensures Scan(OVERLAPPING, 0) == Plain("/") + [Tok("year", "%" + "year" + "%")] + (Plain("postname") + [Lit('%')])
  {
    hide *;
    var s := OVERLAPPING;
    OverlappingParts();
    ScanPlain(s, 0, 1);
    assert |"year"| == 4;
    ScanToken(s, 1, "year");
    ScanPlain(s, 7, 8);
    LastPercent(s, 15);
  }

  lemma LastPercent(s: string, i: nat)
    requires i + 1 == |s| && s[i] == '%'
    ensures Scan(s, i) == [Lit('%')]
  {
    assert Scan(s, i + 1) == [];
  }

  lemma OverlappingShape()
    ensures "/" <= OVERLAPPING && '?' !in OVERLAPPING && '#' !in OVERLAPPING
    ensures forall i :: 0 <= i < |OVERLAPPING| - 1 ==> !(OVERLAPPING[i] == '/' && OVERLAPPING[i + 1] == '/')
    ensures '.' !in OVERLAPPING
  {
  }

  lemma OverlappingTokensHideSlug()
    ensures Validate(OVERLAPPING, PostKind).None? && !HasSlugToken(Scan(OVERLAPPING, 0), PostKind)
  {
    hide Scan, MentionsSlug, Contains, DotSegmentAt, WordName, Plain;
    OverlappingScan();
    OverlappingShape();
    NoDots(OVERLAPPING);
    OverlappingParts();
    NoDoubleSlash(OVERLAPPING);
    SlugNameIsWord(PostKind);
    MentionsToken(OVERLAPPING, PostKind, "/%year", "");
    assert "year" in DateNames(PostKind);
    YearIsNoSlug();
  }

  lemma YearIsNoSlug()
    ensures "year" !in SlugNames(PostKind)
  {
  }

  lemma {:induction false} ExpandPlain(s: string, kind: Kind, slug: string, date: Date)
    ensures Expand(Plain(s), kind, slug, date) == s
  {
    if s != "" {
      assert Plain(s)[1..] == Plain(s[1..]);
      ExpandPlain(s[1..], kind, slug, date);
    }
  }

  /** What the default patterns make of a slug. */
  lemma DefaultURL(kind: Kind, slug: string, date: Date)
    ensures Format(DefaultPattern(kind), kind, slug, date) == DefaultPrefix(kind) + slug
  {
    hide Scan, Expand, PieceText, DefaultPattern, Plain, SlugNames;
    DefaultScan(kind);
    var name := SlugNames(kind)[0];
    var last := Tok(name, "%" + name + "%");
    ExpandAppend(Plain(DefaultPrefix(kind)), [last], kind, slug, date);
    ExpandPlain(DefaultPrefix(kind), kind, slug, date);
    ExpandSlug(last, kind, slug, date);
    assert "/" <= DefaultPrefix(kind);
  }

  lemma ExpandSlug(piece: Piece, kind: Kind, slug: string, date: Date)
    requires IsSlugToken(piece, kind)
    ensures Expand([piece], kind, slug, date) == slug
  {
    assert [piece][1..] == [];
  }

  /** A well-formed pattern shows piece by piece; any other gives the address that the defaults promise. */
  ghost predicate PatternShows(url: string, pattern: string, kind: Kind, slug: string, date: Date) {
    if WellFormed(pattern, kind) then FourDigitYear(date) ==> Shows(url, pattern, slug, date)
    else url == DefaultPrefix(kind) + slug
  }

  lemma URLShowsPattern(setting: string, kind: Kind, slug: string, date: Date)
    ensures PatternShows(URL(setting, kind, slug, date), TrimSpace(setting), kind, slug, date)
  {
    hide Validate, WellFormed, Format, Shows, FourDigitYear, DefaultPattern, DefaultPrefix, TrimSpace;
    var pattern := TrimSpace(setting);
    ValidIffWellFormed(pattern, kind);
    NothingIsIllFormed(kind);
    if WellFormed(pattern, kind) {
      if FourDigitYear(date) { URLShows(pattern, kind, slug, date); }
    } else {
      DefaultURL(kind, slug, date);
    }
  }

  lemma NothingIsIllFormed(kind: Kind)
    ensures !WellFormed("", kind)
  {
    assert |SplitOn("", '/')| == 1;
  }

  // ---------------------------------------------------------------- comparing addresses

  lemma {:induction false} SlashesTrimmed(core: string, slashes: string)
    requires core == "" || core[|core| - 1] != '/'
    requires forall i :: 0 <= i < |slashes| ==> slashes[i] == '/'
    ensures TrimRightSlashes(core + slashes) == core
    decreases |slashes|
  {
    var s := core + slashes;
    if slashes != "" {
      assert s[..|s| - 1] == core + slashes[..|slashes| - 1];
      SlashesTrimmed(core, slashes[..|slashes| - 1]);
    } else {
      assert s == core;
    }
  }

  /** Addresses compare alike exactly up to white space around them, slashes after them and the one before them:
      this is the address any of these spellings compares as. */
  lemma ComparesAs(left: string, rooted: bool, core: string, slashes: string, right: string)
    requires AllSpace(left) && AllSpace(right) && forall i :: 0 <= i < |slashes| ==> slashes[i] == '/'
    requires core != "" && core[0] != '/' && core[|core| - 1] != '/' && Trimmed(core)
    ensures Comparable(left + ((if rooted then "/" else "") + core + slashes) + right) == "/" + core
  {
    hide AllSpace, IsSpace;
    var path := (if rooted then "/" else "") + core + slashes;
    SlashIsNoSpace();
    assert Trimmed(path);
    TrimPadded(left, path, right);
    SlashesTrimmed("/" + core, slashes);
    assert "/" + core + slashes == if rooted then path else "/" + path;
  }

  // ---------------------------------------------------------------- the store's posts

  datatype Settings = Settings(post: string, page: string, tag: string)

  const UNSET := Settings("", "", "")

  class Post {
    const slug: string
    const date: Date
    var url: string

    constructor (slug: string, date: Date)
      ensures this.slug == slug && this.date == date && url == ""
    {
      this.slug, this.date, this.url := slug, date, "";
    }
  }

  /** `PostURL`: with no permalink settings at all a URL the post already has is kept. */
  function PostURL(settings: Settings, slug: string, date: Date, current: string): string {
    if settings == UNSET && current != "" then current else URL(settings.post, PostKind, slug, date)
  }

  ghost predicate DistinctSlugs(posts: seq<Post>) {
    forall i, j :: 0 <= i < j < |posts| ==> posts[i].slug != posts[j].slug
  }

  ghost predicate DistinctPosts(posts: seq<Post>) {
    forall i, j :: 0 <= i < j < |posts| ==> posts[i] != posts[j]
  }

  /** `applyPermalinks`: every post's URL is computed anew. */
  method ApplyPermalinks(settings: Settings, posts: seq<Post>)
    requires DistinctPosts(posts)
    modifies posts
    ensures forall i :: 0 <= i < |posts| ==>
      posts[i].url == PostURL(settings, posts[i].slug, posts[i].date, old(posts[i].url))
    ensures settings == UNSET ==> forall i :: 0 <= i < |posts| && old(posts[i].url) != "" ==> posts[i].url == old(posts[i].url)
    ensures forall i :: 0 <= i < |posts| && (settings != UNSET || old(posts[i].url) == "") ==>
      PatternShows(posts[i].url, TrimSpace(settings.post), PostKind, posts[i].slug, posts[i].date)
  {
    hide URL, PatternShows;
    for i := 0 to |posts|
      invariant forall k :: 0 <= k < i ==>
        posts[k].url == PostURL(settings, posts[k].slug, posts[k].date, old(posts[k].url))
      invariant forall k :: i <= k < |posts| ==> posts[k].url == old(posts[k].url)
      invariant forall k :: 0 <= k < i && (settings != UNSET || old(posts[k].url) == "") ==>
        PatternShows(posts[k].url, TrimSpace(settings.post), PostKind, posts[k].slug, posts[k].date)
    {
      URLShowsPattern(settings.post, PostKind, posts[i].slug, posts[i].date);
      posts[i].url := PostURL(settings, posts[i].slug, posts[i].date, posts[i].url);
    }
  }

  predicate SamePath(a: string, b: string) { Comparable(a) == Comparable(b) }

  ghost predicate FirstAt(posts: seq<Post>, i: nat, requestPath: string)
    requires i < |posts|
    reads posts
  {
    SamePath(posts[i].url, requestPath) && forall k :: 0 <= k < i ==> !SamePath(posts[k].url, requestPath)
  }

  /** `PostByPermalink`: the first post whose URL is the requested path. */
  method PostByPermalink(posts: seq<Post>, requestPath: string) returns (found: Option<Post>)
    ensures found.None? ==> forall i :: 0 <= i < |posts| ==> !SamePath(posts[i].url, requestPath)
    ensures found.Some? ==> exists i :: 0 <= i < |posts| && posts[i] == found.value && FirstAt(posts, i, requestPath)
  {
    for i := 0 to |posts|
      invariant forall k :: 0 <= k < i ==> !SamePath(posts[k].url, requestPath)
    {
      if SamePath(posts[i].url, requestPath) {
        assert FirstAt(posts, i, requestPath);
        return Some(posts[i]);
      }
    }
    return None;
  }

  predicate HasUsablePattern(setting: string) {
    HasSlugToken(Scan(EffectivePattern(setting, PostKind), 0), PostKind)
  }

  lemma EffectiveIsValid(setting: string)
    ensures var p := EffectivePattern(setting, PostKind); Trimmed(p) && Validate(p, PostKind).None?
  {
    DefaultsAreUsable(PostKind);
  }

  lemma {:induction false} TrimRightSlash(s: string)
    ensures TrimRightSlashes(s + "/") == TrimRightSlashes(s)
  {
    assert (s + "/")[..|s|] == s;
  }

  lemma TrailingSlashIgnored(url: string)
    requires "/" <= url && Trimmed(url)
    ensures SamePath(url, url) && SamePath(url, url + "/")
  {
    TrimRightSlash(url);
    assert Trimmed(url + "/");
    if |url| == 1 {
      assert url == "/";
      assert TrimRightSlashes("/") == "" by { assert "/"[..0] == ""; }
    }
  }

  /** Whatever the valid or invalid setting: if its effective pattern scans to a slug token, a request for a
      post's own URL, with or without a trailing slash, finds that very post. */
  method VisitOwnURL(settings: Settings, posts: seq<Post>, i: nat, slash: bool) returns (found: Option<Post>)
    requires i < |posts| && DistinctPosts(posts) && DistinctSlugs(posts)
    requires forall k :: 0 <= k < |posts| ==> posts[k].url == "" && PathSafe(posts[k].slug) && FourDigitYear(posts[k].date)
    requires HasUsablePattern(settings.post)
    modifies posts
    ensures found == Some(posts[i])
  {
    ApplyPermalinks(settings, posts);
    ghost var pattern := EffectivePattern(settings.post, PostKind);
    EffectiveIsValid(settings.post);
    found := PostByPermalink(posts, if slash then posts[i].url + "/" else posts[i].url);
    FormatIsExpansion(pattern, PostKind, posts[i].slug, posts[i].date);
    TrailingSlashIgnored(posts[i].url);
    forall k | 0 <= k < |posts| && SamePath(posts[k].url, posts[i].url) ensures k == i {
      URLsDiffer(pattern, PostKind, posts[k].slug, posts[i].slug, posts[k].date, posts[i].date);
    }
  }
}
