/** Cleaning of the texts in menu and theme settings: IDs, setting keys and link addresses. */
module MenuText {
  import opened Text
  import opened FreshNames

  type CharClass = char -> bool

  /** `regexp.ReplaceAllString` with a pattern `[class]+`: every run becomes one `sub`. */
  function ReplaceRuns(s: string, matched: CharClass, sub: char): string {
    if s == "" then ""
    else if !matched(s[0]) then [s[0]] + ReplaceRuns(s[1..], matched, sub)
    else if |s| > 1 && matched(s[1]) then ReplaceRuns(s[1..], matched, sub)
    else [sub] + ReplaceRuns(s[1..], matched, sub)
  }

  ghost predicate NoPair(s: string, c: char) {
    forall i :: 0 <= i < |s| - 1 ==> !(s[i] == c && s[i + 1] == c)
  }

  /** Runs of unwanted characters leave single separators between wanted ones. */
  lemma {:induction false} RunsReplaced(s: string, matched: CharClass, sub: char)
    requires matched(sub)
    ensures var r := ReplaceRuns(s, matched, sub);
            && (forall i :: 0 <= i < |r| ==> r[i] == sub || !matched(r[i]))
            && NoPair(r, sub)
            && (s != "" && !matched(s[0]) ==> r != "" && r[0] == s[0])
  {
    if s != "" { RunsReplaced(s[1..], matched, sub); }
  }

  lemma {:induction false} RunsKept(s: string, matched: CharClass, sub: char)
    requires NoPair(s, sub) && forall i :: 0 <= i < |s| ==> s[i] == sub || !matched(s[i])
    ensures ReplaceRuns(s, matched, sub) == s
  {
    if s != "" {
      forall i | 0 <= i < |s| - 2 ensures !(s[1..][i] == sub && s[1..][i + 1] == sub) {
        assert !(s[i + 1] == sub && s[i + 2] == sub);
      }
      RunsKept(s[1..], matched, sub);
      assert |s| > 1 ==> !(s[0] == sub && s[0 + 1] == sub);
    }
  }

  lemma {:induction false} TrimCharKeeps(s: string, c: char, matched: CharClass)
    requires NoPair(s, c) && forall i :: 0 <= i < |s| ==> s[i] == c || !matched(s[i])
    ensures var r := TrimChar(s, c); NoPair(r, c) && forall i :: 0 <= i < |r| ==> r[i] == c || !matched(r[i])
  {
    if s != "" && s[0] == c {
      forall i | 0 <= i < |s| - 2 ensures !(s[1..][i] == c && s[1..][i + 1] == c) {
        assert !(s[i + 1] == c && s[i + 2] == c);
      }
      TrimCharKeeps(s[1..], c, matched);
    } else if s != "" && s[|s| - 1] == c {
      var init := s[..|s| - 1];
      assert forall i :: 0 <= i < |init| ==> init[i] == s[i];
      TrimCharKeeps(init, c, matched);
    }
  }

  // ---------------------------------------------------------------- identifiers

  predicate Alphanumeric(c: char) { 'a' <= c <= 'z' || '0' <= c <= '9' }

  /** Words of lower-case letters and digits with one separator between two words. */
  ghost predicate Joined(s: string, separator: char) {
    && (forall i :: 0 <= i < |s| ==> Alphanumeric(s[i]) || s[i] == separator)
    && NoPair(s, separator)
    && (s != "" ==> s[0] != separator && s[|s| - 1] != separator)
  }

  const NOT_ID: CharClass := c => !Alphanumeric(c)
  const DASH: CharClass := c => c == '-'
  const NOT_KEY: CharClass := c => !(Alphanumeric(c) || c == '_')
  const UNDERSCORE: CharClass := c => c == '_'

  /** `normalizeMenuID`. */
  function NormalizeID(value: string): string {
    TrimChar(ReplaceRuns(ReplaceRuns(Lower(TrimSpace(value)), NOT_ID, '-'), DASH, '-'), '-')
  }

  /** `normalizeThemeSettingKey`. */
  function NormalizeKey(value: string): string {
    TrimChar(ReplaceRuns(ReplaceRuns(Lower(TrimSpace(value)), NOT_KEY, '_'), UNDERSCORE, '_'), '_')
  }

  ghost predicate NormalID(id: string) { Joined(id, '-') }

  ghost predicate NormalKey(key: string) { Joined(key, '_') }

  lemma NormalizeIDNormal(value: string)
    ensures NormalID(NormalizeID(value))
  {
    var once := ReplaceRuns(Lower(TrimSpace(value)), NOT_ID, '-');
    RunsReplaced(Lower(TrimSpace(value)), NOT_ID, '-');
    RunsKept(once, DASH, '-');
    TrimCharKeeps(once, '-', NOT_ID);
  }

  ghost predicate Within(s: string, allowed: set<char>) {
    forall i :: 0 <= i < |s| ==> s[i] in allowed
  }

  /** Replacing runs brings in no character but the replacement. */
  lemma {:induction false} RunsOf(s: string, matched: CharClass, sub: char, allowed: set<char>)
    requires sub in allowed && forall i :: 0 <= i < |s| ==> s[i] in allowed || (matched(s[i]) && s[i] != sub)
    ensures Within(ReplaceRuns(s, matched, sub), allowed)
  {
    if s != "" { RunsOf(s[1..], matched, sub, allowed); }
  }

  ghost function KeyCharacters(s: string): set<char> {
    set i | 0 <= i < |s| && !NOT_KEY(s[i]) :: s[i]
  }

  lemma KeyRuns(s: string)
    ensures var r := ReplaceRuns(ReplaceRuns(s, NOT_KEY, '_'), UNDERSCORE, '_');
            NoPair(r, '_') && forall i :: 0 <= i < |r| ==> r[i] == '_' || !NOT_KEY(r[i])
  {
    var once, allowed := ReplaceRuns(s, NOT_KEY, '_'), KeyCharacters(s) + {'_'};
    RunsOf(s, NOT_KEY, '_', allowed);
    RunsReplaced(once, UNDERSCORE, '_');
    RunsOf(once, UNDERSCORE, '_', allowed);
    assert forall c :: c in allowed ==> !NOT_KEY(c);
  }

  lemma NormalizeKeyNormal(value: string)
    ensures NormalKey(NormalizeKey(value))
  {
    var s := Lower(TrimSpace(value));
    KeyRuns(s);
    TrimCharKeeps(ReplaceRuns(ReplaceRuns(s, NOT_KEY, '_'), UNDERSCORE, '_'), '_', NOT_KEY);
  }

  lemma JoinedIsClean(s: string, separator: char)
    requires Joined(s, separator) && separator in ['-', '_']
    ensures Trimmed(s) && LowerFixed(s)
  {
    forall i | 0 <= i < |s| ensures LowerChar(s[i]) == s[i] && !IsSpace(s[i]) {
      assert Alphanumeric(s[i]) || s[i] == separator;
    }
  }

  lemma NormalIDKept(id: string)
    requires NormalID(id)
    ensures NormalizeID(id) == id
  {
    JoinedIsClean(id, '-');
    LowerOfFixed(id);
    RunsKept(id, NOT_ID, '-');
    RunsKept(id, DASH, '-');
  }

  lemma NormalKeyKept(key: string)
    requires NormalKey(key)
    ensures NormalizeKey(key) == key
  {
    JoinedIsClean(key, '_');
    LowerOfFixed(key);
    RunsKept(key, NOT_KEY, '_');
    RunsKept(key, UNDERSCORE, '_');
  }

  /** Numbering a normal ID gives a normal ID. */
  lemma CandidateNormal(base: string, n: nat)
    requires NormalID(base) && base != "" && n >= 1
    ensures NormalID(Candidate(base, n)) && Candidate(base, n) != ""
  {
    if n > 1 {
      var c, digits := Candidate(base, n), Decimal(n);
      forall i | 0 <= i < |c| ensures Alphanumeric(c[i]) || c[i] == '-' {
        assert c[i] == if i < |base| then base[i] else if i == |base| then '-' else digits[i - |base| - 1];
      }
      forall i | 0 <= i < |c| - 1 ensures !(c[i] == '-' && c[i + 1] == '-') {
        assert i > |base| ==> c[i] == digits[i - |base| - 1];
        assert i == |base| ==> c[i + 1] == digits[0];
      }
      assert c[|c| - 1] == digits[|digits| - 1];
    }
  }

  // ---------------------------------------------------------------- addresses

  predicate ValidMenuURL(value: string) {
    var v := TrimSpace(value);
    var lower := Lower(v);
    v != "" && (("/" <= v && !("//" <= v)) || "https://" <= lower || "http://" <= lower || "mailto:" <= lower)
  }

  /** Whether `url.Parse` finds an https URL whose host is localhost or has a dot in it. */
  type HostTest = string -> bool

  /** `normalizeMenuURL`. */
  function NormalizeURL(value: string, hasHost: HostTest): Option<string> {
    var v := TrimSpace(value);
    if ValidMenuURL(v) then Some(v)
    else if v == "" || "/" <= v || ' ' in v || '\t' in v || '\r' in v || '\n' in v then None
    else if hasHost("https://" + v) then Some("https://" + v)
    else None
  }

  lemma HttpsIsValid(v: string)
    requires Trimmed(v) && v != ""
    ensures Trimmed("https://" + v) && ValidMenuURL("https://" + v)
  {
    hide Lower;
    var u := "https://" + v;
    assert u[0] == 'h' && u[|u| - 1] == v[|v| - 1];
    LowerAppend("https://", v);
    LowerOfFixed("https://");
  }

  /** A cleaned address is trimmed, safe, and cleaning it again changes nothing. */
  lemma NormalizedURL(value: string, hasHost: HostTest)
    ensures match NormalizeURL(value, hasHost)
      case Some(u) => u != "" && Trimmed(u) && ValidMenuURL(u) && NormalizeURL(u, hasHost) == Some(u)
      case None => !ValidMenuURL(value)
  {
    var v := TrimSpace(value);
    if !ValidMenuURL(v) && v != "" {
      HttpsIsValid(v);
    }
  }
}
