/**
  Unsigned integers stored in memory as bytes. The modelled platform is
  little-endian, so the first byte holds the least significant eight bits;
  this is the "native byte order" in which the serialised filter is written.
*/
module NativeBytes {

  /** One byte of memory: an unsigned 8-bit value. */
  type byte = x: int | 0 <= x < 256

  /** 256 to the power n: how many values an n-byte unsigned integer can hold. */
  function Pow256(n: nat): (p: nat)
    ensures p >= 1
  {
    if n == 0 then 1 else 256 * Pow256(n - 1)
  }

  /** The n bytes that hold x in memory, least significant byte first. */
  function EncodeUint(x: nat, n: nat): (r: seq<byte>)
    requires x < Pow256(n)
    ensures |r| == n
  {
    if n == 0 then [] else [x % 256] + EncodeUint(x / 256, n - 1)
  }

  /** The unsigned integer that the bytes s hold in memory. */
  function DecodeUint(s: seq<byte>): (x: nat)
    ensures x < Pow256(|s|)
  {
    if |s| == 0 then 0 else s[0] + 256 * DecodeUint(s[1..])
  }

  /** Reading back the bytes an integer was stored as gives the integer. */
  lemma {:induction false} DecodeEncode(x: nat, n: nat)
    requires x < Pow256(n)
    ensures DecodeUint(EncodeUint(x, n)) == x
  {
    if n > 0 {
      var r := EncodeUint(x, n);
      var lo, hi := x % 256, x / 256;
      assert r[0] == lo && r[1..] == EncodeUint(hi, n - 1);
      DecodeEncode(hi, n - 1);
      assert x == lo + 256 * hi;
    }
  }

  /** Every byte string is the stored form of the integer it holds. */
  lemma {:induction false} EncodeDecode(s: seq<byte>)
    ensures EncodeUint(DecodeUint(s), |s|) == s
  {
    if |s| > 0 {
      var lo, hi := s[0], DecodeUint(s[1..]);
      var d := DecodeUint(s);
      assert d == lo + 256 * hi;
      assert d % 256 == lo && d / 256 == hi;
      EncodeDecode(s[1..]);
      assert EncodeUint(d, |s|) == [lo] + EncodeUint(hi, |s| - 1);
    }
  }

  /** Two integers stored in the same number of bytes are equal when their bytes are. */
  lemma EncodeInjective(x: nat, y: nat, n: nat)
    requires x < Pow256(n) && y < Pow256(n)
    requires EncodeUint(x, n) == EncodeUint(y, n)
    ensures x == y
  {
    DecodeEncode(x, n);
    DecodeEncode(y, n);
  }
}
