/**
  The one platform the model fixes: LP64 and little-endian, as on x86-64
  Linux. There `uint32_t` is 4 bytes, `size_t` is W = 8 bytes, and both
  `long` and `zend_long` are signed 64-bit integers.
*/
module Platform {

  import opened NativeBytes

  /** sizeof(uint32_t) */
  const Uint32Bytes: nat := 4
  /** W = sizeof(size_t) */
  const WordBytes: nat := 8
  /** SIZE_MAX */
  const SizeMax: int := 0xFFFF_FFFF_FFFF_FFFF

  type uint32 = x: int | 0 <= x < 0x1_0000_0000
  /** A value of type size_t. */
  type usize = x: int | 0 <= x <= 0xFFFF_FFFF_FFFF_FFFF
  /** A value of type long (and zend_long). */
  type int64 = x: int | -0x8000_0000_0000_0000 <= x < 0x8000_0000_0000_0000

  lemma WidthsMatchTypes()
    ensures Pow256(Uint32Bytes) == 0x1_0000_0000
    ensures Pow256(WordBytes) == SizeMax + 1
  {
    assert Pow256(4) == 0x1_0000_0000;
    assert Pow256(8) == 0x1_0000_0000 * Pow256(4);
  }

  /**
    The conversion C applies to a long compared with or passed as a size_t:
    the value modulo 2^64.
  */
  function LongToSize(x: int64): (r: usize)
    ensures (r - x) % (SizeMax + 1) == 0
  {
    if x < 0 then x + SizeMax + 1 else x
  }

  /**
    The conversion C applies to a size_t stored into a zend_long: the same
    64 bits read as a two's-complement number.
  */
  function SizeToLong(x: usize): (r: int64)
    ensures (r - x) % (SizeMax + 1) == 0
  {
    if x <= 0x7FFF_FFFF_FFFF_FFFF then x else x - SizeMax - 1
  }

  /** The two conversions undo each other in both directions. */
  lemma ConversionsInverse(l: int64, s: usize)
    ensures SizeToLong(LongToSize(l)) == l
    ensures LongToSize(SizeToLong(s)) == s
    ensures 0 <= l ==> LongToSize(l) == l
  {
  }
}
