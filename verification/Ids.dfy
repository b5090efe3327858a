/** Derived ids (src/kgcs/ids.py): a digest prefix in Crockford base 32.  SHA-256 itself is
    a parameter; what is shown here is that the encoding loses none of its bits. */
module Ids {

  const ALPHABET: string := "0123456789ABCDEFGHJKMNPQRSTVWXYZ"

  const TOKEN_LENGTH: nat := 26

  type Byte = b: nat | b < 256

  type Digest = d: seq<Byte> | |d| == 16 witness seq(16, _ => 0)

  function Power(base: nat, n: nat): nat { if n == 0 then 1 else base * Power(base, n - 1) }

  /** The big-endian number that data spells. */
  function BigEndian(data: seq<Byte>): nat {
    if data == [] then 0 else 256 * BigEndian(data[..|data| - 1]) + data[|data| - 1]
  }

  lemma {:induction false} BigEndianBound(data: seq<Byte>)
    ensures BigEndian(data) < Power(256, |data|)
  {
    if data != [] { BigEndianBound(data[..|data| - 1]); }
  }

  lemma {:induction false} BigEndianInjective(a: seq<Byte>, b: seq<Byte>)
    requires |a| == |b| && BigEndian(a) == BigEndian(b)
    ensures a == b
  {
    if a != [] {
      var n := |a| - 1;
      BigEndianInjective(a[..n], b[..n]);
      assert a == a[..n] + [a[n]] && b == b[..n] + [b[n]];
    }
  }

  /* ---------- base 32 ---------- */

  function SymbolValue(c: char): int {
    if c == '0' then 0 else if c == '1' then 1 else if c == '2' then 2 else if c == '3' then 3
    else if c == '4' then 4 else if c == '5' then 5 else if c == '6' then 6 else if c == '7' then 7
    else if c == '8' then 8 else if c == '9' then 9 else if c == 'A' then 10 else if c == 'B' then 11
    else if c == 'C' then 12 else if c == 'D' then 13 else if c == 'E' then 14 else if c == 'F' then 15
    else if c == 'G' then 16 else if c == 'H' then 17 else if c == 'J' then 18 else if c == 'K' then 19
    else if c == 'M' then 20 else if c == 'N' then 21 else if c == 'P' then 22 else if c == 'Q' then 23
    else if c == 'R' then 24 else if c == 'S' then 25 else if c == 'T' then 26 else if c == 'V' then 27
    else if c == 'W' then 28 else if c == 'X' then 29 else if c == 'Y' then 30 else if c == 'Z' then 31
    else -1
  }

  lemma SymbolRoundTrip(v: nat)
    requires v < 32
    ensures SymbolValue(ALPHABET[v]) == v
  {
  }

  /** The number a token spells, most significant symbol first. */
  function TokenValue(token: string): int {
    if token == "" then 0 else 32 * TokenValue(token[..|token| - 1]) + SymbolValue(token[|token| - 1])
  }

  predicate InAlphabet(token: string) {
    forall c <- token :: SymbolValue(c) >= 0
  }

  /** The `length` low base-32 digits of value as symbols. */
  function Base32(value: nat, length: nat): string {
    if length == 0 then "" else Base32(value / 32, length - 1) + [ALPHABET[value % 32]]
  }

  /** The last digit apart, the remainder is that of the other digits. */
  lemma LastDigit(value: nat, p: nat)
    requires p > 0
    ensures 32 * (value / 32 % p) + value % 32 == value % (32 * p)
  {
    var high, low := value / 32, value % 32;
    var k, r := high / p, high % p;
    assert value == 32 * (p * k + r) + low;
    Associate(32, p, k);
    assert value == 32 * p * k + (32 * r + low);
    RemainderIs(value, 32 * p, k, 32 * r + low);
  }

  lemma RemainderIs(value: nat, n: nat, k: nat, r: nat)
    requires value == n * k + r && r < n
    ensures value % n == r
  {
    var q, m := value / n, value % n;
    assert n * q + m == n * k + r;
    if q < k { Larger(n, q, k); } else if k < q { Larger(n, k, q); }
  }

  lemma Larger(n: nat, a: nat, b: nat)
    requires a < b
    ensures n * b >= n * a + n
  {
    assert n * b == n * a + n * (b - a);
    assert b - a >= 1;
  }

  /** The symbols spell the number, short of what does not fit. */
  lemma {:induction false} Base32Spells(value: nat, length: nat)
    ensures Power(32, length) > 0
    ensures |Base32(value, length)| == length && InAlphabet(Base32(value, length))
    ensures TokenValue(Base32(value, length)) == value % Power(32, length)
  {
    if length > 0 {
      Base32Spells(value / 32, length - 1);
      SymbolRoundTrip(value % 32);
      LastDigit(value, Power(32, length - 1));
    }
  }

  /** A number that fits is spelled without loss. */
  lemma Base32RoundTrip(value: nat, length: nat)
    requires value < Power(32, length)
    ensures |Base32(value, length)| == length && InAlphabet(Base32(value, length))
    ensures TokenValue(Base32(value, length)) == value
  {
    Base32Spells(value, length);
    SmallRemainder(value, Power(32, length));
  }

  lemma SmallRemainder(value: nat, n: nat)
    requires value < n
    ensures value % n == value
  {
  }

  /** The in-place loop.  The symbols spell data's number, all of it where it fits into
      `length` symbols, and its low digits where it does not. */
  method EncodeBase32(data: seq<Byte>, length: nat) returns (token: string)
    ensures |token| == length && InAlphabet(token)
    ensures Power(32, length) > 0 && TokenValue(token) == BigEndian(data) % Power(32, length)
    ensures token == Base32(BigEndian(data), length)
  {
    ghost var spelled := Base32(BigEndian(data), length);
    var value: nat := BigEndian(data);
    var chars := new char[length](_ => '0');
    var i: int := length;
    while i > 0
      invariant 0 <= i <= length
      invariant spelled == Base32(value, i) + chars[i..]
    {
      ghost var tail := chars[i..];
      i := i - 1;
      chars[i] := ALPHABET[value % 32];
      assert chars[i..] == [chars[i]] + tail;
      value := value / 32;
    }
    token := chars[..];
    assert "" + chars[0..] == token;
    Base32Spells(BigEndian(data), length);
  }

  /* ---------- digests ---------- */

  lemma {:induction false} PowerAdd(base: nat, m: nat, n: nat)
    ensures Power(base, m + n) == Power(base, m) * Power(base, n)
  {
    if m > 0 {
      PowerAdd(base, m - 1, n);
      Associate(base, Power(base, m - 1), Power(base, n));
    }
  }

  lemma Associate(x: nat, y: nat, z: nat)
    ensures x * (y * z) == x * y * z
  {
  }

  lemma DigestFits(d: Digest)
    ensures BigEndian(d) < 8 * Power(32, TOKEN_LENGTH - 1) < Power(32, TOKEN_LENGTH)
  {
    BigEndianBound(d);
    var p := Power(32, 8);
    assert Power(256, 5) == p == 0x100_0000_0000;
    PowerAdd(256, 5, 5);
    PowerAdd(256, 10, 5);
    PowerAdd(32, 8, 8);
    PowerAdd(32, 16, 8);
    assert Power(256, 16) == 256 * Power(256, 15);
    assert Power(32, 25) == 32 * Power(32, 24);
  }

  function Token(d: Digest): string { Base32(BigEndian(d), TOKEN_LENGTH) }

  /** A digest's token has 26 symbols of the alphabet, spells the digest, and starts with a
      symbol of value 7 at most. */
  lemma TokenSpellsDigest(d: Digest)
    ensures |Token(d)| == TOKEN_LENGTH && InAlphabet(Token(d)) && SymbolValue(Token(d)[0]) <= 7
    ensures TokenValue(Token(d)) == BigEndian(d)
  {
    DigestFits(d);
    Base32RoundTrip(BigEndian(d), TOKEN_LENGTH);
    FirstSymbol(BigEndian(d), TOKEN_LENGTH);
  }

  /** The loop on a digest: its token, which spells it. */
  method DeriveToken(d: Digest) returns (token: string)
    ensures token == Token(d) && |token| == TOKEN_LENGTH && TokenValue(token) == BigEndian(d)
  {
    TokenSpellsDigest(d);
    token := EncodeBase32(d, TOKEN_LENGTH);
  }

  /** Different digests have different tokens. */
  lemma TokenKeepsDigest(d: Digest, e: Digest)
    ensures Token(d) == Token(e) <==> d == e
  {
    TokenSpellsDigest(d);
    TokenSpellsDigest(e);
    if Token(d) == Token(e) { BigEndianInjective(d, e); }
  }

  lemma {:induction false} FirstSymbol(value: nat, length: nat)
    requires length > 0 && value < 8 * Power(32, length - 1)
    ensures |Base32(value, length)| == length && SymbolValue(Base32(value, length)[0]) <= 7
  {
    if length == 1 {
      SymbolRoundTrip(value);
      assert Base32(value / 32, 0) == "";
    } else {
      FirstSymbol(value / 32, length - 1);
    }
  }

  /* ---------- the derived factory ---------- */

  /** Mints every id from a seed, through the digest function `sha`. */
  datatype IdFactory = IdFactory(sha: string -> Digest) {
    function AssertionId(seed: string): string { "as_" + Token(sha(seed)) }

    function OperationId(seed: string): string { "op_" + Token(sha(seed)) }

    function PlanId(seed: string): string { "pl_" + Token(sha(seed)) }

    /** The prefix tells what an id is of, and the token behind it spells the seed's digest. */
    lemma IdsAreMarked(seed: string)
      ensures exists token :: |token| == 26 && TokenValue(token) == BigEndian(sha(seed)) &&
                              AssertionId(seed) == "as_" + token && OperationId(seed) == "op_" + token &&
                              PlanId(seed) == "pl_" + token
    {
      var token := Token(sha(seed));
      TokenSpellsDigest(sha(seed));
      assert AssertionId(seed) == "as_" + token && OperationId(seed) == "op_" + token && PlanId(seed) == "pl_" + token;
    }

    /** Two seeds get the same record id exactly when their digests agree. */
    lemma AssertionIdIff(s: string, t: string)
      ensures AssertionId(s) == AssertionId(t) <==> sha(s) == sha(t)
    {
      TokenKeepsDigest(sha(s), sha(t));
      if AssertionId(s) == AssertionId(t) {
        assert Token(sha(s)) == AssertionId(s)[3..] && Token(sha(t)) == AssertionId(t)[3..];
      }
    }
  }
}
