/**
 Byte strings, the hash they are fed to, and their hexadecimal text.

 SHA-256 is not modelled: every statement is made for an arbitrary hash with 32-byte
 results. Over all inputs a collision always exists, so collision resistance is only ever
 assumed or refuted between two finite sets of inputs that were really hashed.
 */
module Bytes {
  type byte = x: int | 0 <= x < 256
  type Bytes = seq<byte>

  const DIGEST_LEN := 32

  /** A hash function with 32-byte results: `hashlib.sha256(..).digest()`. */
  type Sha256 = h: Bytes -> Bytes | forall b :: |h(b)| == DIGEST_LEN
    witness (b: Bytes) => seq(DIGEST_LEN, i => 0)

  ghost predicate Clash<T(!new), D>(h: T -> D, x: T, y: T) { x != y && h(x) == h(y) }

  /** Some input of `mine` and a different one of `theirs` have the same digest. */
  ghost predicate Collide<T(!new), D>(h: T -> D, mine: set<T>, theirs: set<T>) {
    exists x, y {:trigger Clash(h, x, y)} :: x in mine && y in theirs && Clash(h, x, y)
  }

  lemma EqualDigests<T(!new), D>(h: T -> D, mine: set<T>, theirs: set<T>, x: T, y: T)
    requires !Collide(h, mine, theirs) && x in mine && y in theirs && h(x) == h(y)
    ensures x == y
  {
    assert Clash(h, x, y) ==> x != y;
  }

  /** A collision is two inputs. */
  lemma Collides<T(!new), D>(h: T -> D, mine: set<T>, theirs: set<T>, x: T, y: T)
    requires x in mine && y in theirs && x != y && h(x) == h(y)
    ensures Collide(h, mine, theirs)
  {
    assert Clash(h, x, y);
  }

  /** Fewer inputs cannot collide where more did not. */
  lemma NoCollideWithin<T(!new), D>(h: T -> D, mine: set<T>, theirs: set<T>, mine': set<T>, theirs': set<T>)
    requires mine <= mine' && theirs <= theirs' && !Collide(h, mine', theirs')
    ensures !Collide(h, mine, theirs)
  {
  }

  /** The bytes of an ASCII literal. */
  function Ascii(s: string): (b: Bytes)
    ensures |b| == |s|
  {
    if s == "" then [] else [if s[0] as int < 128 then s[0] as int else 0] + Ascii(s[1..])
  }

  // ----- lower-case hexadecimal: bytes.hex() --------------------------------------

  const HEX_DIGITS := "0123456789abcdef"

  function Hex(b: Bytes): (s: string)
    ensures |s| == 2 * |b|
    ensures forall c :: c in s ==> c in HEX_DIGITS
  {
    if b == [] then ""
    else [HEX_DIGITS[b[0] / 16], HEX_DIGITS[b[0] % 16]] + Hex(b[1..])
  }

  lemma HexDigitInjective(i: nat, j: nat)
    requires i < 16 && j < 16 && HEX_DIGITS[i] == HEX_DIGITS[j]
    ensures i == j
  {
  }

  /** Two byte strings with the same hexadecimal text are the same. */
  lemma {:induction false} HexInjective(a: Bytes, b: Bytes)
    requires Hex(a) == Hex(b)
    ensures a == b
  {
    assert |a| == |b|;
    if a != [] {
      var ha, hb := Hex(a), Hex(b);
      assert ha[0] == hb[0] && ha[1] == hb[1];
      HexDigitInjective(a[0] / 16, b[0] / 16);
      HexDigitInjective(a[0] % 16, b[0] % 16);
      assert ha[2..] == Hex(a[1..]) && hb[2..] == Hex(b[1..]);
      HexInjective(a[1..], b[1..]);
      assert a == [a[0]] + a[1..] && b == [b[0]] + b[1..];
    }
  }

  // ----- prefixes ------------------------------------------------------------------

  /** A fixed-length prefix can be peeled off a concatenation. */
  lemma ConcatSplit<T>(p: seq<T>, x: seq<T>, q: seq<T>, y: seq<T>)
    requires |p| == |q| && p + x == q + y
    ensures p == q && x == y
  {
    assert p == (p + x)[..|p|] && q == (q + y)[..|q|];
    assert x == (p + x)[|p|..] && y == (q + y)[|q|..];
  }
}
