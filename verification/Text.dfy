/** The string helpers of the Go standard library that the modelled code relies on.
    A string is a sequence of Unicode code points. */
module Text {

  datatype Option<+T> = None | Some(value: T) {
    function GetOr(default_: T): T {
      match this case None => default_ case Some(v) => v
    }
  }

  /** The code points `unicode.IsSpace` accepts. */
  predicate IsSpace(c: char) {
    var n := c as int;
    || 9 <= n <= 13 || n == 0x20 || n == 0x85 || n == 0xA0 || n == 0x1680
    || 0x2000 <= n <= 0x200A || n == 0x2028 || n == 0x2029 || n == 0x202F || n == 0x205F || n == 0x3000
  }

  predicate AllSpace(s: string) {
    forall i :: 0 <= i < |s| ==> IsSpace(s[i])
  }

  predicate Trimmed(s: string) {
    s == "" || (!IsSpace(s[0]) && !IsSpace(s[|s| - 1]))
  }

  function TrimSpace(s: string): (r: string)
    ensures Trimmed(r)
    ensures Trimmed(s) ==> r == s
    ensures |r| <= |s|
    ensures r == "" <==> AllSpace(s)
  {
    if s == "" then s
    else if IsSpace(s[0]) then
      assert s == [s[0]] + s[1..];
      TrimSpace(s[1..])
    else if IsSpace(s[|s| - 1]) then
      assert s == s[..|s| - 1] + [s[|s| - 1]];
      TrimSpace(s[..|s| - 1])
    else s
  }

  /** Trimming removes exactly the white space around a trimmed core. */
  lemma {:induction false} TrimPadded(left: string, core: string, right: string)
    requires AllSpace(left) && AllSpace(right) && Trimmed(core)
    ensures TrimSpace(left + core + right) == core
    decreases |left| + |right|
  {
    var s := left + core + right;
    if left != "" {
      assert s[1..] == left[1..] + core + right;
      TrimPadded(left[1..], core, right);
    } else if core == "" {
      assert s == right;
    } else if right != "" {
      assert s[0] == core[0] && s[|s| - 1] == right[|right| - 1];
      assert s[..|s| - 1] == left + core + right[..|right| - 1];
      TrimPadded(left, core, right[..|right| - 1]);
    } else {
      assert s == core;
    }
  }

  /** Trimming adds no characters. */
  lemma {:induction false} TrimmedFrom(s: string, c: char)
    ensures c in TrimSpace(s) ==> c in s
    decreases |s|
  {
    if s != "" {
      if IsSpace(s[0]) {
        TrimmedFrom(s[1..], c);
      } else if IsSpace(s[|s| - 1]) {
        TrimmedFrom(s[..|s| - 1], c);
      }
    }
  }

  predicate HasSuffix(s: string, suffix: string) {
    |suffix| <= |s| && s[|s| - |suffix|..] == suffix
  }

  /** `part` stands at `i`. */
  predicate At(s: string, i: nat, part: string) {
    i + |part| <= |s| && s[i..i + |part|] == part
  }

  function OrElse(text: string, other: string): string { if text == "" then other else text }

  /** `strings.Contains`. */
  predicate Contains(s: string, part: string) {
    exists i :: 0 <= i <= |s| && part <= s[i..]
  }

  /** `strings.Trim(s, string(c))`. */
  function TrimChar(s: string, c: char): (r: string)
    ensures r != "" ==> r[0] != c && r[|r| - 1] != c
    ensures s == "" || (s[0] != c && s[|s| - 1] != c) ==> r == s
    ensures forall i :: 0 <= i < |r| ==> r[i] in s
  {
    if s == "" then s
    else if s[0] == c then TrimChar(s[1..], c)
    else if s[|s| - 1] == c then TrimChar(s[..|s| - 1], c)
    else s
  }

  function Concat(parts: seq<string>): string {
    if parts == [] then "" else parts[0] + Concat(parts[1..])
  }

  // ---------------------------------------------------------------- splitting at a character

  function JoinOn(parts: seq<string>, c: char): string
    requires parts != []
  {
    if |parts| == 1 then parts[0] else parts[0] + [c] + JoinOn(parts[1..], c)
  }

  /** `strings.Split` with a separator of one character. */
  function SplitOn(s: string, c: char): (parts: seq<string>)
    ensures parts != []
    ensures forall i :: 0 <= i < |parts| ==> c !in parts[i]
  {
    if s == "" then [""]
    else
      var rest := SplitOn(s[1..], c);
      if s[0] == c then [""] + rest else [[s[0]] + rest[0]] + rest[1..]
  }

  lemma {:induction false} SplitFirst(part: string, rest: string, c: char)
    requires c !in part
    ensures SplitOn(part + [c] + rest, c) == [part] + SplitOn(rest, c)
  {
    var s := part + [c] + rest;
    if part == "" {
      assert s[1..] == rest;
    } else {
      assert s[1..] == part[1..] + [c] + rest;
      assert part[0] in part && part == [part[0]] + part[1..];
      SplitFirst(part[1..], rest, c);
    }
  }

  lemma {:induction false} SplitOne(part: string, c: char)
    requires c !in part
    ensures SplitOn(part, c) == [part]
  {
    if part != "" {
      assert part[0] in part && part == [part[0]] + part[1..];
      SplitOne(part[1..], c);
    }
  }

  lemma {:induction false} SplitJoined(parts: seq<string>, c: char)
    requires parts != [] && forall i :: 0 <= i < |parts| ==> c !in parts[i]
    ensures SplitOn(JoinOn(parts, c), c) == parts
  {
    if |parts| == 1 {
      SplitOne(parts[0], c);
    } else {
      SplitJoined(parts[1..], c);
      SplitFirst(parts[0], JoinOn(parts[1..], c), c);
    }
  }

  // ---------------------------------------------------------------- decimal numerals

  predicate IsDigit(c: char) { '0' <= c <= '9' }

  function Digit(n: nat): (c: char)
    requires n < 10
    ensures IsDigit(c)
  {
    ('0' as int + n) as char
  }

  /** `%d` of a non-negative number. */
  function Decimal(n: nat): (s: string)
    ensures s != "" && forall i :: 0 <= i < |s| ==> IsDigit(s[i])
    ensures |s| == 1 <==> n < 10
  {
    if n < 10 then [Digit(n)] else Decimal(n / 10) + [Digit(n % 10)]
  }

  function DecimalValue(s: string): nat {
    if s == "" then 0
    else DecimalValue(s[..|s| - 1]) * 10 + (if IsDigit(s[|s| - 1]) then s[|s| - 1] as int - '0' as int else 0)
  }

  lemma {:induction false} DecimalRoundTrip(n: nat)
    ensures DecimalValue(Decimal(n)) == n
  {
    var s := Decimal(n);
    if n < 10 {
      assert s[..0] == "";
    } else {
      assert s[..|s| - 1] == Decimal(n / 10);
      DecimalRoundTrip(n / 10);
    }
  }

  lemma DecimalInjective(m: nat, n: nat)
    requires Decimal(m) == Decimal(n)
    ensures m == n
  {
    DecimalRoundTrip(m);
    DecimalRoundTrip(n);
  }

  function Pow10(d: nat): (p: nat)
    ensures p >= 1
  {
    if d == 0 then 1 else 10 * Pow10(d - 1)
  }

  lemma {:induction false} DecimalLength(n: nat, d: nat)
    requires d >= 1
    ensures |Decimal(n)| <= d <==> n < Pow10(d)
  {
    if n < 10 {
      assert Pow10(d) == 10 * Pow10(d - 1);
    } else if d >= 2 {
      DecimalLength(n / 10, d - 1);
    } else {
      assert Pow10(1) == 10 * Pow10(0);
    }
  }

  function Zeros(n: nat): (s: string)
    ensures |s| == n && forall i :: 0 <= i < n ==> s[i] == '0'
  {
    seq(n, _ => '0')
  }

  /** `%0*d` of a non-negative number. */
  function Padded(n: nat, width: nat): (s: string)
    ensures forall i :: 0 <= i < |s| ==> IsDigit(s[i])
  {
    var digits := Decimal(n);
    if |digits| >= width then digits else Zeros(width - |digits|) + digits
  }

  lemma {:induction false} LeadingZeros(k: nat, s: string)
    ensures DecimalValue(Zeros(k) + s) == DecimalValue(s)
    decreases k + |s|
  {
    var t := Zeros(k) + s;
    if s != "" {
      assert t[..|t| - 1] == Zeros(k) + s[..|s| - 1];
      LeadingZeros(k, s[..|s| - 1]);
    } else if k > 0 {
      assert t[..|t| - 1] == Zeros(k - 1) + s;
      LeadingZeros(k - 1, s);
    } else {
      assert t == s;
    }
  }

  lemma PaddedRoundTrip(n: nat, width: nat)
    ensures DecimalValue(Padded(n, width)) == n
  {
    DecimalRoundTrip(n);
    LeadingZeros(if |Decimal(n)| >= width then 0 else width - |Decimal(n)|, Decimal(n));
    assert Zeros(0) + Decimal(n) == Decimal(n);
  }

  // ---------------------------------------------------------------- letter case

  /** `unicode.ToLower`, exact on every code point whose lower case is ASCII: the Kelvin sign and the
      dotted capital I are the only ones outside A-Z. Other code points are left as they are. */
  function LowerChar(c: char): char {
    if 'A' <= c <= 'Z' then (c as int + 32) as char
    else if c == '\U{212A}' then 'k'
    else if c == '\U{0130}' then 'i'
    else c
  }

  function Lower(s: string): (r: string)
    ensures |r| == |s|
    ensures forall i :: 0 <= i < |s| ==> r[i] == LowerChar(s[i])
  {
    if s == "" then "" else [LowerChar(s[0])] + Lower(s[1..])
  }

  lemma {:induction false} LowerAppend(a: string, b: string)
    ensures Lower(a + b) == Lower(a) + Lower(b)
  {
    if a == "" {
      assert a + b == b;
    } else {
      assert (a + b)[1..] == a[1..] + b;
      LowerAppend(a[1..], b);
    }
  }

  predicate LowerFixed(s: string) {
    forall i :: 0 <= i < |s| ==> LowerChar(s[i]) == s[i]
  }

  lemma LowerOfFixed(s: string)
    requires LowerFixed(s)
    ensures Lower(s) == s
  {
  }

  /** `strings.EqualFold` against an ASCII lower-case word: simple folding also takes the long s to s. */
  function FoldChar(c: char): char {
    if 'A' <= c <= 'Z' then (c as int + 32) as char
    else if c == '\U{212A}' then 'k'
    else if c == '\U{017F}' then 's'
    else c
  }

  predicate EqualFoldWord(s: string, word: string) {
    |s| == |word| && forall i :: 0 <= i < |s| ==> FoldChar(s[i]) == word[i]
  }
}
