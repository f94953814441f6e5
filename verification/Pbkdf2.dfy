/** The key derivation of the admin password, against section 5.2 of RFC 8018 with HMAC-SHA-256 as its
    pseudorandom function. The function itself is a parameter; all that is known of it is that its results
    have 32 bytes. */
module Pbkdf2 {
  const HASH_LENGTH := 32

  type Bytes = seq<bv8>

  type Block = b: Bytes | |b| == HASH_LENGTH witness seq(HASH_LENGTH, _ => 0)

  /** The key comes first, then the message. */
  type Mac = (Bytes, Bytes) -> Block

  const WORD := 0x1_0000_0000

  /** `binary.BigEndian.PutUint32`: four bytes, most significant first. */
  function BigEndian(n: nat): (r: Bytes)
    requires n < WORD
    ensures |r| == 4
  {
    [(n / 0x100_0000) as bv8, (n / 0x1_0000 % 0x100) as bv8, (n / 0x100 % 0x100) as bv8, (n % 0x100) as bv8]
  }

  /** The number that digits of base 256 stand for, the most significant first. */
  function Value(digits: seq<nat>): nat {
    if digits == [] then 0 else Value(digits[..|digits| - 1]) * 0x100 + digits[|digits| - 1]
  }

  lemma ValueMore(digits: seq<nat>, last: nat)
    ensures Value(digits + [last]) == Value(digits) * 0x100 + last
  {
    assert (digits + [last])[..|digits|] == digits;
  }

  /** The bytes are the digits of the number. */
  lemma BigEndianValue(n: nat) returns (digits: seq<nat>)
    requires n < WORD
    ensures |digits| == 4 && Value(digits) == n
    ensures forall i :: 0 <= i < 4 ==> digits[i] < 0x100 && BigEndian(n)[i] == digits[i] as bv8
  {
    hide Value;
    var a, b, c, d := n / 0x100_0000, n / 0x1_0000 % 0x100, n / 0x100 % 0x100, n % 0x100;
    digits := [] + [a] + [b] + [c] + [d];
    assert Value([]) == 0 by { NoDigits(); }
    ValueMore([], a);
    ValueMore([] + [a], b);
    ValueMore([] + [a] + [b], c);
    ValueMore([] + [a] + [b] + [c], d);
    Digits256(n);
  }

  lemma NoDigits()
    ensures Value([]) == 0
  {
  }

  lemma Digits256(n: nat)
    requires n < WORD
    ensures ((n / 0x100_0000 * 0x100 + n / 0x1_0000 % 0x100) * 0x100 + n / 0x100 % 0x100) * 0x100 + n % 0x100 == n
    ensures n / 0x100_0000 < 0x100
  {
  }

  /** The block counter of the program has 32 bits. */
  function Counter(block: nat): Bytes { BigEndian(block % WORD) }

  function Xor(a: Block, b: Block): Block {
    seq(HASH_LENGTH, j requires 0 <= j < HASH_LENGTH => a[j] ^ b[j])
  }

  // ---------------------------------------------------------------- section 5.2 of RFC 8018

  /** U_c of block i. */
  function U(mac: Mac, password: Bytes, salt: Bytes, i: nat, c: nat): Block
    requires c >= 1 && i < WORD
  {
    if c == 1 then mac(password, salt + BigEndian(i)) else mac(password, U(mac, password, salt, i, c - 1))
  }

  /** F: the exclusive or of U_1 to U_c. */
  function F(mac: Mac, password: Bytes, salt: Bytes, c: nat, i: nat): Block
    requires c >= 1 && i < WORD
  {
    if c == 1 then U(mac, password, salt, i, 1)
    else Xor(F(mac, password, salt, c - 1, i), U(mac, password, salt, i, c))
  }

  /** T_1 to T_l, one after another. */
  function T(mac: Mac, password: Bytes, salt: Bytes, c: nat, l: nat): Bytes
    requires c >= 1 && l < WORD
  {
    if l == 0 then [] else T(mac, password, salt, c, l - 1) + F(mac, password, salt, c, l)
  }

  /** The number of blocks for a key of the given length, the last one possibly in part. */
  function BlockCount(keyLen: nat): nat { (keyLen + HASH_LENGTH - 1) / HASH_LENGTH }

  const LONGEST := (WORD - 1) * HASH_LENGTH

  datatype Derived = Key(bytes: Bytes) | TooLong

  function Standard(mac: Mac, password: Bytes, salt: Bytes, c: nat, keyLen: nat): Derived
    requires c >= 1 && keyLen >= 1
  {
    if keyLen > LONGEST then TooLong
    else
      BlocksSuffice(keyLen);
      BlockBytes(mac, password, salt, c, BlockCount(keyLen));
      Key(T(mac, password, salt, c, BlockCount(keyLen))[..keyLen])
  }

  lemma BlocksSuffice(keyLen: nat)
    ensures keyLen <= BlockCount(keyLen) * HASH_LENGTH < keyLen + HASH_LENGTH
    ensures keyLen <= LONGEST <==> BlockCount(keyLen) < WORD
  {
  }

  lemma {:induction false} BlockBytes(mac: Mac, password: Bytes, salt: Bytes, c: nat, l: nat)
    requires c >= 1 && l < WORD
    ensures |T(mac, password, salt, c, l)| == l * HASH_LENGTH
  {
    if l > 0 { BlockBytes(mac, password, salt, c, l - 1); }
  }

  // ---------------------------------------------------------------- the program

  /** The blocks as the program numbers them: past the last 32-bit number they start over. */
  function Blocks(mac: Mac, password: Bytes, salt: Bytes, c: nat, l: nat): (r: Bytes)
    requires c >= 1
    ensures |r| == l * HASH_LENGTH
  {
    if l == 0 then [] else Blocks(mac, password, salt, c, l - 1) + F(mac, password, salt, c, l % WORD)
  }

  /** `t[j] ^= u[j]` for every `j`. */
  method XorInPlace(t: array<bv8>, u: Block)
    requires t.Length == HASH_LENGTH
    modifies t
    ensures t[..] == Xor(old(t[..]), u)
  {
    for j := 0 to t.Length
      invariant forall k :: 0 <= k < j ==> t[k] == old(t[k]) ^ u[k]
      invariant forall k :: j <= k < t.Length ==> t[k] == old(t[k])
    {
      t[j] := t[j] ^ u[j];
    }
  }

  method DeriveBlock(mac: Mac, password: Bytes, salt: Bytes, rounds: nat, block: nat) returns (t: array<bv8>)
    requires rounds >= 1
    ensures fresh(t) && t[..] == F(mac, password, salt, rounds, block % WORD)
  {
    var u := mac(password, salt + Counter(block));
    t := new bv8[HASH_LENGTH](j requires 0 <= j < HASH_LENGTH => u[j]);
    assert t[..] == u;
    var i := 1;
    while i < rounds
      invariant 1 <= i <= rounds
      invariant u == U(mac, password, salt, block % WORD, i)
      invariant t[..] == F(mac, password, salt, i, block % WORD)
    {
      u := mac(password, u);
      XorInPlace(t, u);
      i := i + 1;
    }
  }

  method DeriveKey(mac: Mac, password: Bytes, salt: Bytes, rounds: int, keyLen: int) returns (key: Bytes)
    ensures rounds <= 0 || keyLen <= 0 ==> key == []
    ensures rounds > 0 && keyLen > 0 ==>
      |key| == keyLen && key <= Blocks(mac, password, salt, rounds, BlockCount(keyLen))
  {
    if rounds <= 0 || keyLen <= 0 {
      return [];
    }
    var blockCount := BlockCount(keyLen);
    BlocksSuffice(keyLen);
    var derived: Bytes := [];
    for block := 1 to blockCount + 1
      invariant derived == Blocks(mac, password, salt, rounds, block - 1)
    {
      var t := DeriveBlock(mac, password, salt, rounds, block);
      derived := derived + t[..];
    }
    key := derived[..keyLen];
  }

  // ---------------------------------------------------------------- results

  lemma {:induction false} BlocksAreStandard(mac: Mac, password: Bytes, salt: Bytes, c: nat, l: nat)
    requires c >= 1 && l < WORD
    ensures Blocks(mac, password, salt, c, l) == T(mac, password, salt, c, l)
  {
    if l > 0 { BlocksAreStandard(mac, password, salt, c, l - 1); }
  }

  /** As long as the standard allows the length, the key is the standard's; past it the standard asks for an error
      and the program goes on with blocks it has already used. */
  method DeriveStandardKey(mac: Mac, password: Bytes, salt: Bytes, rounds: nat, keyLen: nat) returns (key: Bytes)
    requires rounds >= 1 && keyLen >= 1
    ensures match Standard(mac, password, salt, rounds, keyLen)
      case Key(bytes) => key == bytes
      case TooLong => |key| == keyLen
  {
    key := DeriveKey(mac, password, salt, rounds, keyLen);
    BlocksSuffice(keyLen);
    if keyLen <= LONGEST {
      BlocksAreStandard(mac, password, salt, rounds, BlockCount(keyLen));
    }
  }

  lemma {:induction false} BlocksPrefix(mac: Mac, password: Bytes, salt: Bytes, c: nat, l: nat, m: nat)
    requires c >= 1 && l <= m
    ensures Blocks(mac, password, salt, c, l) <= Blocks(mac, password, salt, c, m)
    decreases m - l
  {
    if l < m { BlocksPrefix(mac, password, salt, c, l, m - 1); }
  }

  /** A shorter key is the beginning of a longer one for the same password, salt and rounds. */
  lemma ShorterKeyIsPrefix(mac: Mac, password: Bytes, salt: Bytes, rounds: nat, short: Bytes, long: Bytes)
    requires rounds >= 1 && |short| <= |long|
    requires short <= Blocks(mac, password, salt, rounds, BlockCount(|short|))
    requires long <= Blocks(mac, password, salt, rounds, BlockCount(|long|))
    ensures short <= long
  {
    hide Blocks, BlockCount;
    FewerBlocks(|short|, |long|);
    BlocksPrefix(mac, password, salt, rounds, BlockCount(|short|), BlockCount(|long|));
    var all := Blocks(mac, password, salt, rounds, BlockCount(|long|));
    assert short == all[..|short|] && long == all[..|long|];
    assert all[..|long|][..|short|] == all[..|short|];
  }

  lemma FewerBlocks(a: nat, b: nat)
    requires a <= b
    ensures BlockCount(a) <= BlockCount(b)
  {
  }

  /** Past the limit blocks come again: block 2^32 + i is block i. */
  lemma BlocksRepeat(mac: Mac, password: Bytes, salt: Bytes, c: nat, i: nat)
    requires c >= 1 && 1 <= i < WORD
    ensures var l := WORD + i;
            var last := Blocks(mac, password, salt, c, l)[(l - 1) * HASH_LENGTH..l * HASH_LENGTH];
            last == Blocks(mac, password, salt, c, i)[(i - 1) * HASH_LENGTH..i * HASH_LENGTH]
  {
    LastBlock(mac, password, salt, c, WORD + i);
    LastBlock(mac, password, salt, c, i);
    assert (WORD + i) % WORD == i == i % WORD;
  }

  lemma LastBlock(mac: Mac, password: Bytes, salt: Bytes, c: nat, l: nat)
    requires c >= 1 && l >= 1
    ensures Blocks(mac, password, salt, c, l)[(l - 1) * HASH_LENGTH..l * HASH_LENGTH] == F(mac, password, salt, c, l % WORD)
  {
  }
}
