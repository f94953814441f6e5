/** Where the files of a media item lie, and how the path of an item leads back to its file. */
module MediaPaths {
  import opened Text

  // ---------------------------------------------------------------- cleaning paths

  /** `filepath.Clean` on the elements of a relative path. */
  function CleanParts(parts: seq<string>): seq<string> {
    if parts == [] then []
    else
      var before, part := CleanParts(parts[..|parts| - 1]), parts[|parts| - 1];
      if part == "" || part == "." then before
      else if part == ".." && before != [] && before[|before| - 1] != ".." then before[..|before| - 1]
      else before + [part]
  }

  function Clean(path: string): string {
    var parts := CleanParts(SplitOn(path, '/'));
    if parts == [] then "." else JoinOn(parts, '/')
  }

  predicate Ordinary(part: string) { part != "" && part != "." && part != ".." && '/' !in part }

  lemma {:induction false} OrdinaryParts(parts: seq<string>)
    requires forall i :: 0 <= i < |parts| ==> Ordinary(parts[i])
    ensures CleanParts(parts) == parts
  {
    if parts != [] {
      OrdinaryParts(parts[..|parts| - 1]);
      assert Ordinary(parts[|parts| - 1]);
      assert parts == parts[..|parts| - 1] + [parts[|parts| - 1]];
    }
  }

  /** A path made of ordinary names is clean. */
  lemma CleanKeeps(parts: seq<string>)
    requires parts != [] && forall i :: 0 <= i < |parts| ==> Ordinary(parts[i])
    ensures Clean(JoinOn(parts, '/')) == JoinOn(parts, '/')
  {
    forall i | 0 <= i < |parts| ensures '/' !in parts[i] {
      assert Ordinary(parts[i]);
    }
    SplitJoined(parts, '/');
    OrdinaryParts(parts);
  }

  // ---------------------------------------------------------------- the files of an item

  const ID_LENGTH := 24
  const MEDIA := "/media/"
  const ORIGINALS := "originals/"

  predicate HexID(id: string) {
    |id| == ID_LENGTH && forall i :: 0 <= i < |id| ==> '0' <= id[i] <= '9' || 'a' <= id[i] <= 'f'
  }

  function HexDigit(n: nat): char
    requires n < 16
  {
    "0123456789abcdef"[n]
  }

  /** `hex.EncodeToString`. */
  function HexText(bytes: seq<nat>): (s: string)
    requires forall i :: 0 <= i < |bytes| ==> bytes[i] < 256
    ensures |s| == 2 * |bytes|
  {
    if bytes == [] then "" else [HexDigit(bytes[0] / 16), HexDigit(bytes[0] % 16)] + HexText(bytes[1..])
  }

  function HexValue(c: char): nat {
    if '0' <= c <= '9' then (c as int - '0' as int) as nat else if 'a' <= c <= 'f' then (c as int - 'a' as int + 10) as nat else 0
  }

  lemma HexDigits(c: char)
    requires '0' <= c <= '9' || 'a' <= c <= 'f'
    ensures HexValue(c) < 16 && HexDigit(HexValue(c)) == c
  {
    assert "0123456789abcdef"[0] == '0' && "0123456789abcdef"[1] == '1' && "0123456789abcdef"[2] == '2' && "0123456789abcdef"[3] == '3';
    assert "0123456789abcdef"[4] == '4' && "0123456789abcdef"[5] == '5' && "0123456789abcdef"[6] == '6' && "0123456789abcdef"[7] == '7';
    assert "0123456789abcdef"[8] == '8' && "0123456789abcdef"[9] == '9' && "0123456789abcdef"[10] == 'a' && "0123456789abcdef"[11] == 'b';
    assert "0123456789abcdef"[12] == 'c' && "0123456789abcdef"[13] == 'd' && "0123456789abcdef"[14] == 'e' && "0123456789abcdef"[15] == 'f';
  }

  lemma {:induction false} HexTextDigits(bytes: seq<nat>)
    requires forall i :: 0 <= i < |bytes| ==> bytes[i] < 256
    ensures forall i :: 0 <= i < |HexText(bytes)| ==> var c := HexText(bytes)[i]; '0' <= c <= '9' || 'a' <= c <= 'f'
  {
    if bytes != [] { HexTextDigits(bytes[1..]); }
  }

  lemma {:induction false} BytesOfHex(s: string) returns (bytes: seq<nat>)
    requires |s| % 2 == 0 && forall i :: 0 <= i < |s| ==> '0' <= s[i] <= '9' || 'a' <= s[i] <= 'f'
    ensures (forall i :: 0 <= i < |bytes| ==> bytes[i] < 256) && HexText(bytes) == s
  {
    if s == "" {
      bytes := [];
    } else {
      HexDigits(s[0]);
      HexDigits(s[1]);
      var rest := BytesOfHex(s[2..]);
      var first := HexValue(s[0]) * 16 + HexValue(s[1]);
      bytes := [first] + rest;
      assert first / 16 == HexValue(s[0]) && first % 16 == HexValue(s[1]);
      assert bytes[1..] == rest && s == [s[0], s[1]] + s[2..];
    }
  }

  /** The IDs that twelve random bytes make are exactly these. */
  lemma IDsOfBytes(id: string)
    ensures HexID(id) <==> exists bytes: seq<nat> :: |bytes| == 12 && (forall i :: 0 <= i < 12 ==> bytes[i] < 256) && id == HexText(bytes)
  {
    if HexID(id) {
      var bytes := BytesOfHex(id);
      assert |bytes| == 12;
    }
    forall bytes: seq<nat> | |bytes| == 12 && (forall i :: 0 <= i < 12 ==> bytes[i] < 256) && id == HexText(bytes) ensures HexID(id) {
      HexTextDigits(bytes);
    }
  }

  /** The directory of a month: a year of four digits, a month of two. */
  datatype Month = Month(year: string, month: string) {
    predicate Valid() {
      |year| == 4 && |month| == 2 && (forall i :: 0 <= i < 4 ==> IsDigit(year[i])) && forall i :: 0 <= i < 2 ==> IsDigit(month[i])
    }
  }

  function Relative(m: Month, id: string, ext: string): string {
    m.year + "/" + m.month + "/" + id + ext
  }

  /** Extensions come from file names, so they hold no slash. */
  ghost predicate StoredFile(file: string, id: string) {
    exists m: Month, ext: string :: m.Valid() && '/' !in ext && file == Relative(m, id, ext)
  }

  ghost predicate OriginalFile(file: string, id: string) {
    ORIGINALS <= file && StoredFile(file[|ORIGINALS|..], id)
  }

  /** The file a public path was made from. */
  function FileOf(path: string): string {
    if MEDIA <= path then path[|MEDIA|..] else path
  }

  /** `publicPathFilePath`. */
  function Resolve(path: string): Option<string> {
    var t := TrimSpace(path);
    if !(MEDIA <= t) || t == MEDIA || t[|MEDIA|] == '/' then None
    else
      var cleaned := Clean(t[|MEDIA|..]);
      if cleaned == "." || cleaned == ".." || "../" <= cleaned then None else Some(cleaned)
  }

  /** Steps up come first, then ordinary names. */
  ghost predicate UpThenNames(parts: seq<string>) {
    && (forall i :: 0 <= i < |parts| ==> parts[i] == ".." || Ordinary(parts[i]))
    && (forall i, j :: 0 <= i < j < |parts| && parts[j] == ".." ==> parts[i] == "..")
  }

  lemma {:induction false} CleanedParts(parts: seq<string>)
    requires forall i :: 0 <= i < |parts| ==> '/' !in parts[i]
    ensures UpThenNames(CleanParts(parts))
  {
    if parts != [] { CleanedParts(parts[..|parts| - 1]); }
  }

  lemma JoinBegins(parts: seq<string>)
    requires parts != []
    ensures parts[0] <= JoinOn(parts, '/')
    ensures |parts| == 1 ==> JoinOn(parts, '/') == parts[0]
    ensures |parts| > 1 ==> parts[0] + "/" <= JoinOn(parts, '/')
  {
  }

  lemma UpFirst(first: string, path: string)
    requires first + "/" <= path && '/' !in first
    ensures "../" <= path <==> first == ".."
    ensures path != ".."
  {
    var n := |first|;
    assert (first + "/")[n] == path[n] == '/';
    assert forall i :: 0 <= i < n ==> path[i] == first[i] && first[i] in first;
    assert "../" <= path <==> |path| > 2 && path[0] == '.' && path[1] == '.' && path[2] == '/';
  }

  /** A path that is joined from several names, or from one, begins with steps up or not as its first name says. */
  lemma StepsUp(parts: seq<string>)
    requires parts != [] && UpThenNames(parts)
    ensures var path := JoinOn(parts, '/');
            path != "." && (path == ".." || "../" <= path <==> parts[0] == "..")
  {
    JoinBegins(parts);
    var path := JoinOn(parts, '/');
    assert '/' !in parts[0];
    assert "../" <= path ==> path[2] == '/' && path[2] in path;
    if |parts| > 1 {
      UpFirst(parts[0], path);
      assert (parts[0] + "/")[|parts[0]|] == path[|parts[0]|] == '/';
    }
  }

  /** A path leads to a file exactly if it lies under the media directory and names something in it that is not
      reached by going up; no name in it leads out of the directory again. */
  lemma ResolvedStaysInside(path: string)
    ensures var t := TrimSpace(path);
            var parts := if MEDIA <= t then CleanParts(SplitOn(t[|MEDIA|..], '/')) else [];
            match Resolve(path)
            case Some(file) => SplitOn(file, '/') == parts && forall i :: 0 <= i < |parts| ==> Ordinary(parts[i])
            case None => t == MEDIA || (MEDIA <= t && t[|MEDIA|] == '/') || parts == [] || parts[0] == ".."
  {
    hide TrimSpace, SplitOn, CleanParts;
    var t := TrimSpace(path);
    if MEDIA <= t {
      var parts := CleanParts(SplitOn(t[|MEDIA|..], '/'));
      CleanedParts(SplitOn(t[|MEDIA|..], '/'));
      if parts != [] {
        StepsUp(parts);
        if parts[0] != ".." {
          assert forall i :: 0 <= i < |parts| ==> Ordinary(parts[i]);
          SplitJoined(parts, '/');
        }
      }
    }
  }

  /** The ID in a file name. */
  function Owner(file: string): string {
    var f := if ORIGINALS <= file then file[|ORIGINALS|..] else file;
    if |f| < 8 + ID_LENGTH then "" else f[8..8 + ID_LENGTH]
  }

  lemma RelativeOwner(m: Month, id: string, ext: string)
    requires m.Valid() && HexID(id)
    ensures var f := Relative(m, id, ext); !(ORIGINALS <= f) && Owner(f) == id && Owner(ORIGINALS + f) == id
  {
    var f := Relative(m, id, ext);
    assert f[0] == m.year[0] && IsDigit(f[0]);
    assert f[8..8 + ID_LENGTH] == id;
    assert (ORIGINALS + f)[|ORIGINALS|..] == f;
  }

  lemma FilesHaveOwner(file: string, id: string)
    requires HexID(id) && (StoredFile(file, id) || OriginalFile(file, id))
    ensures Owner(file) == id
  {
    if StoredFile(file, id) {
      var m: Month, ext: string :| m.Valid() && '/' !in ext && file == Relative(m, id, ext);
      RelativeOwner(m, id, ext);
    } else {
      var f := file[|ORIGINALS|..];
      var m: Month, ext: string :| m.Valid() && '/' !in ext && f == Relative(m, id, ext);
      RelativeOwner(m, id, ext);
      assert file == ORIGINALS + f;
    }
  }

  /** Trimming takes white space off the extension only. */
  lemma {:induction false} TrimsExtension(core: string, ext: string) returns (k: nat)
    requires Trimmed(core) && core != ""
    ensures k <= |ext| && TrimSpace(core + ext) == core + ext[..k]
    ensures ext == "" || !IsSpace(ext[|ext| - 1]) ==> k == |ext|
    decreases |ext|
  {
    hide IsSpace;
    var s := core + ext;
    assert s[0] == core[0];
    if ext == "" {
      k := 0;
      assert s == core && core + ext[..0] == core;
    } else {
      assert s[|s| - 1] == ext[|ext| - 1];
      if IsSpace(ext[|ext| - 1]) {
        assert s[..|s| - 1] == core + ext[..|ext| - 1];
        k := TrimsExtension(core, ext[..|ext| - 1]);
        assert ext[..|ext| - 1][..k] == ext[..k];
      } else {
        k := |ext|;
        assert ext[..k] == ext;
      }
    }
  }

  lemma PartsOrdinary(m: Month, id: string, ext: string)
    requires m.Valid() && HexID(id) && '/' !in ext
    ensures Ordinary(m.year) && Ordinary(m.month) && Ordinary(id + ext)
  {
    var name := id + ext;
    assert name[0] == id[0] && name[1] == id[1];
    assert '/' !in id by { assert forall i :: 0 <= i < |id| ==> id[i] != '/'; }
    assert IsDigit(m.year[0]) && IsDigit(m.month[0]);
  }

  lemma JoinThree(a: string, b: string, c: string)
    ensures JoinOn([a, b, c], '/') == a + "/" + (b + "/" + c)
  {
    JoinFirst(a, [b, c]);
    JoinFirst(b, [c]);
    assert [a] + [b, c] == [a, b, c] && [b] + [c] == [b, c];
  }

  lemma RelativeIsClean(m: Month, id: string, ext: string, original: bool)
    requires m.Valid() && HexID(id) && '/' !in ext
    ensures var f := (if original then ORIGINALS else "") + Relative(m, id, ext); Clean(f) == f
  {
    hide Clean, HexID, JoinOn;
    PartsOrdinary(m, id, ext);
    var parts := [m.year, m.month, id + ext];
    JoinThree(m.year, m.month, id + ext);
    assert JoinOn(parts, '/') == Relative(m, id, ext);
    if original {
      var all := ["originals"] + parts;
      JoinFirst("originals", parts);
      assert "originals" + "/" + JoinOn(parts, '/') == ORIGINALS + Relative(m, id, ext);
      assert Ordinary("originals");
      CleanKeeps(all);
    } else {
      CleanKeeps(parts);
      assert "" + Relative(m, id, ext) == Relative(m, id, ext);
    }
  }

  lemma JoinFirst(first: string, parts: seq<string>)
    requires parts != []
    ensures JoinOn([first] + parts, '/') == first + "/" + JoinOn(parts, '/')
  {
    assert ([first] + parts)[1..] == parts;
  }

  function InDirectory(original: bool, m: Month, id: string, ext: string): string {
    (if original then ORIGINALS else "") + Relative(m, id, ext)
  }

  lemma TrimmedPath(m: Month, id: string, ext: string, original: bool) returns (shorter: string)
    requires m.Valid() && HexID(id) && '/' !in ext
    ensures TrimSpace(MEDIA + InDirectory(original, m, id, ext)) == MEDIA + InDirectory(original, m, id, shorter)
    ensures '/' !in shorter && (ext == "" || !IsSpace(ext[|ext| - 1]) ==> shorter == ext)
  {
    hide IsSpace, TrimSpace;
    var head := if original then ORIGINALS else "";
    var core := MEDIA + head + Relative(m, id, "");
    CoreTrimmed(m, id, head);
    var k := TrimsExtension(core, ext);
    shorter := ext[..k];
    assert MEDIA + InDirectory(original, m, id, ext) == core + ext;
    assert MEDIA + InDirectory(original, m, id, shorter) == core + shorter;
    if k == |ext| { assert shorter == ext; }
  }

  lemma ResolvesRelative(m: Month, id: string, ext: string, original: bool)
    requires m.Valid() && HexID(id) && '/' !in ext
    ensures var f := InDirectory(original, m, id, ext);
            && Resolve(MEDIA + f).Some?
            && Owner(Resolve(MEDIA + f).value) == id
            && MEDIA + Resolve(MEDIA + f).value == TrimSpace(MEDIA + f)
  {
    hide Clean, IsSpace, TrimSpace, Owner, InDirectory, HexID;
    var shorter := TrimmedPath(m, id, ext, original);
    var f := InDirectory(original, m, id, shorter);
    assert (MEDIA + f)[|MEDIA|..] == f;
    FileShape(m, id, shorter, original);
  }

  lemma FileShape(m: Month, id: string, ext: string, original: bool)
    requires m.Valid() && HexID(id) && '/' !in ext
    ensures var f := InDirectory(original, m, id, ext);
            && Clean(f) == f
            && Owner(f) == id
            && |f| > 2
            && f[0] != '/'
            && f[0] != '.'
  {
    hide Clean, Owner;
    RelativeIsClean(m, id, ext, original);
    RelativeOwner(m, id, ext);
    FirstCharacter(m, id, ext, if original then ORIGINALS else "");
    assert "" + Relative(m, id, ext) == Relative(m, id, ext);
  }

  lemma FirstCharacter(m: Month, id: string, ext: string, head: string)
    requires m.Valid() && (head == "" || head == ORIGINALS)
    ensures var f := head + Relative(m, id, ext); |f| > 2 && f[0] != '/' && f[0] != '.'
  {
    assert Relative(m, id, ext)[0] == m.year[0];
  }

  lemma CoreTrimmed(m: Month, id: string, head: string)
    requires m.Valid() && HexID(id)
    ensures var core := MEDIA + head + Relative(m, id, ""); core != "" && Trimmed(core)
  {
    var core := MEDIA + head + Relative(m, id, "");
    assert core[|core| - 1] == id[|id| - 1];
    assert core[0] == '/';
  }

  /** The path of an item leads to a file with the item's own ID, and to the very file exactly when the path does
      not end in white space. */
  lemma ResolvesToOwn(path: string, id: string)
    requires HexID(id) && MEDIA <= path && (StoredFile(FileOf(path), id) || OriginalFile(FileOf(path), id))
    ensures Resolve(path).Some? && Owner(Resolve(path).value) == id
    ensures Resolve(path) == Some(FileOf(path)) <==> !IsSpace(path[|path| - 1])
  {
    hide Resolve, Owner, IsSpace, HexID;
    var file := FileOf(path);
    var original := !StoredFile(file, id);
    var f := if original then file[|ORIGINALS|..] else file;
    var m: Month, ext: string :| m.Valid() && '/' !in ext && f == Relative(m, id, ext);
    var built := InDirectory(original, m, id, ext);
    assert built == file && path == MEDIA + built;
    ResolvesRelative(m, id, ext, original);
    assert path[0] == '/';
    TrimmedWhenNoSpace(path);
    assert (MEDIA + Resolve(path).value)[|MEDIA|..] == Resolve(path).value;
  }

  lemma TrimmedWhenNoSpace(path: string)
    requires path != "" && path[0] == '/'
    ensures TrimSpace(path) == path <==> !IsSpace(path[|path| - 1])
  {
  }
}
