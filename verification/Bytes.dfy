// Byte strings and big-endian integers, as `struct` with "!" and `int.to_bytes` write them.

module ByteStrings {
  import opened Numbers

  type Byte = x: int | 0 <= x < 256
  type Bytes = seq<Byte>

  function ToBE(v: nat, n: nat): (s: Bytes)
    ensures |s| == n
  {
    if n == 0 then [] else ToBE(v / 256, n - 1) + [v % 256]
  }

  function FromBE(s: Bytes): nat {
    if s == [] then 0 else 256 * FromBE(s[..|s| - 1]) + s[|s| - 1]
  }

  lemma {:induction false} FromToBE(v: nat, n: nat)
    requires v < Power(256, n)
    ensures FromBE(ToBE(v, n)) == v
    decreases n
  {
    if n > 0 {
      FromToBE(v / 256, n - 1);
      assert ToBE(v, n)[..n - 1] == ToBE(v / 256, n - 1);
    }
  }

  lemma {:induction false} ToFromBE(s: Bytes)
    ensures FromBE(s) < Power(256, |s|)
    ensures ToBE(FromBE(s), |s|) == s
    decreases |s|
  {
    if s != [] {
      ToFromBE(s[..|s| - 1]);
      assert s == s[..|s| - 1] + [s[|s| - 1]];
    }
  }

  /** The bytes are the digits of v to base 256, most significant first. */
  predicate IsBigEndian(s: Bytes, v: nat) {
    forall i | 0 <= i < |s| :: s[i] == Digit(v, 256, |s| - 1 - i)
  }

  lemma {:induction false} ToBEIsBigEndian(v: nat, n: nat)
    ensures IsBigEndian(ToBE(v, n), v)
    decreases n
  {
    if n > 0 {
      ToBEIsBigEndian(v / 256, n - 1);
      forall i | 0 <= i < n ensures ToBE(v, n)[i] == Digit(v, 256, n - 1 - i) {
        DigitFurtherLeft(v, 256, if i < n - 1 then n - 2 - i else 0);
      }
    }
  }

  // A field of two bytes.
  lemma TwoBytes(v: nat)
    requires v < 0x1_0000
    ensures ToBE(v, 2)[0] == v / 256 && ToBE(v, 2)[1] == v % 256
  {
    assert ToBE(v, 1) == ToBE(v / 256, 0) + [v % 256];
    assert ToBE(v, 2) == ToBE(v / 256, 1) + [v % 256];
    assert ToBE(v / 256, 1) == ToBE(v / 256 / 256, 0) + [v / 256 % 256];
  }

  lemma PowersOf256()
    ensures Power(256, 2) == 0x1_0000
    ensures Power(256, 8) == 0x1_0000_0000_0000_0000
    ensures Power(256, 16) == 0x1_0000_0000_0000_0000_0000_0000_0000_0000
  {
    assert Power(256, 5) == 0x100_0000_0000 by { assert Power(256, 3) == 0x100_0000; }
    assert Power(256, 11) == 0x100_0000_0000_0000_0000_0000;
  }
}
