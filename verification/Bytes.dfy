/** Octets, and the machine integers the server squeezes sizes and statuses into. */
module Bytes {
  type byte = b: int | 0 <= b < 256
  type bytes = seq<byte>

  const TWO_31 := 0x8000_0000
  const TWO_32 := 0x1_0000_0000

  function Min(a: nat, b: nat): nat {
    if a < b then a else b
  }

  /** Conversion to `unsigned int`. */
  function Uint32(n: int): nat {
    n % TWO_32
  }

  /** Conversion to `int`, two's complement. */
  function Int32(n: int): int {
    var u := n % TWO_32;
    if u < TWO_31 then u else u - TWO_32
  }

  /** The two conversions: the representative of `n` modulo 2^32 in the type's range. */
  lemma Conversions(n: int)
    ensures 0 <= Uint32(n) < 0x1_0000_0000 && (n - Uint32(n)) % 0x1_0000_0000 == 0
    ensures -0x8000_0000 <= Int32(n) < 0x8000_0000 && (n - Int32(n)) % 0x1_0000_0000 == 0
  {
    assert n == n / 0x1_0000_0000 * 0x1_0000_0000 + n % 0x1_0000_0000;
  }

  /** The part of `s` that a callee sees when the length is passed as `unsigned int`. */
  function Low32(s: bytes): bytes {
    s[..Uint32(|s|)]
  }

  /** A big-endian pair of octets. */
  function U16(hi: nat, lo: nat): nat {
    hi * 256 + lo
  }

  lemma U16Split(n: nat)
    ensures U16(n / 256 % 256, n % 256) == n % 65536
    ensures n < 65536 ==> U16(n / 256, n % 256) == n
  {
  }

  function Zeros(n: nat): bytes {
    seq(n, (i: nat) => 0 as byte)
  }

  function Concat(parts: seq<bytes>): bytes {
    if parts == [] then [] else parts[0] + Concat(parts[1..])
  }

  /** The cut made by `Low32` is invisible exactly for sequences that fit in 32 bits. */
  lemma Low32Whole(s: bytes)
    ensures Low32(s) == s <==> |s| < 0x1_0000_0000
  {
    if Low32(s) == s {
      assert |Low32(s)| == Uint32(|s|);
    }
  }

  /** The octets are the characters of the text. */
  predicate Spells(b: bytes, text: string) {
    |b| == |text| && forall i :: 0 <= i < |text| ==> b[i] as int == text[i] as int
  }

  lemma SpelledOnce(a: bytes, b: bytes, text: string)
    requires Spells(a, text)
    ensures Spells(b, text) <==> a == b
  {
    if Spells(b, text) {
      forall i | 0 <= i < |a| ensures a[i] == b[i] {
        assert a[i] as int == text[i] as int == b[i] as int;
      }
    }
  }

  lemma DropDrop<T>(s: seq<T>, i: nat, j: nat)
    requires i + j <= |s|
    ensures s[i..][j..] == s[i + j..]
  {
  }

  lemma DropTo<T>(s: seq<T>, i: nat, j: nat)
    requires i <= j <= |s|
    ensures s[i..][j - i..] == s[j..]
  {
  }

  lemma TailOfPrefix<T>(s: seq<T>, n: nat)
    requires 0 < n <= |s|
    ensures s[..n][0] == s[0] && s[..n][1..] == s[1..][..n - 1]
  {
  }

  lemma TakeOfConcat<T>(a: seq<T>, b: seq<T>, k: nat)
    requires k <= |a| + |b|
    ensures k <= |a| ==> (a + b)[..k] == a[..k]
    ensures k >= |a| ==> (a + b)[..k] == a + b[..k - |a|]
  {
  }

  lemma Regroup<T>(a: seq<T>, b: seq<T>, c: seq<T>)
    ensures (a + b) + c == a + (b + c)
  {
  }
}
