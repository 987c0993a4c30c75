/**
  The binary form produced by `BloomFilter::write` and consumed by
  `BloomFilter::read`: salt1 (4 bytes), salt2 (4 bytes), the element counter
  (W bytes) and the raw bit array, each integer in native byte order.
*/
module Serial {

  import opened NativeBytes
  import opened Platform
  import opened BloomState

  /** Where each field starts. */
  const Salt2Offset: nat := Uint32Bytes
  const CounterOffset: nat := 2 * Uint32Bytes
  const BitsOffset: nat := 2 * Uint32Bytes + WordBytes

  /** The number of bytes `write` produces and `read` consumes for a filter of this geometry. */
  function SerializedLength(spec: Spec): (n: nat)
    ensures n == 4 + 4 + WordBytes + spec.sizeBytes
  {
    BitsOffset + spec.sizeBytes
  }

  /** `BloomFilter::write`: the serialised filter. */
  function Write(b: Bloom): (r: seq<byte>)
    ensures |r| == SerializedLength(b.spec)
    ensures r[..Salt2Offset] == EncodeUint(b.salt1, Uint32Bytes)
    ensures r[Salt2Offset..CounterOffset] == EncodeUint(b.salt2, Uint32Bytes)
    ensures r[CounterOffset..BitsOffset] == EncodeUint(b.numElements, WordBytes)
    ensures r[BitsOffset..] == b.bits
  {
    WidthsMatchTypes();
    var s1 := EncodeUint(b.salt1, Uint32Bytes);
    var s2 := EncodeUint(b.salt2, Uint32Bytes);
    var n := EncodeUint(b.numElements, WordBytes);
    assert (s1 + s2 + n + b.bits)[..Salt2Offset] == s1;
    assert (s1 + s2 + n + b.bits)[Salt2Offset..CounterOffset] == s2;
    assert (s1 + s2 + n + b.bits)[CounterOffset..BitsOffset] == n;
    s1 + s2 + n + b.bits
  }

  /**
    `BloomFilter::read` on an already constructed filter: the salts and the
    counter are taken from offsets 0, 4 and 8, and exactly `size_bytes`
    bytes from offset 8 + W replace the bit array. The source never looks at
    the length of its input, so the input must hold all of these bytes.
  */
  function Read(target: Bloom, data: seq<byte>): (r: Bloom)
    requires |data| >= SerializedLength(target.spec)
    ensures r.spec == target.spec && r.maxErrorRate == target.maxErrorRate
    ensures |r.bits| == target.spec.sizeBytes
    ensures EncodeUint(r.salt1, Uint32Bytes) == data[..Salt2Offset]
    ensures EncodeUint(r.salt2, Uint32Bytes) == data[Salt2Offset..CounterOffset]
    ensures EncodeUint(r.numElements, WordBytes) == data[CounterOffset..BitsOffset]
    ensures r.bits == data[BitsOffset..SerializedLength(target.spec)]
  {
    WidthsMatchTypes();
    var s1 := data[..Salt2Offset];
    var s2 := data[Salt2Offset..CounterOffset];
    var n := data[CounterOffset..BitsOffset];
    EncodeDecode(s1);
    EncodeDecode(s2);
    EncodeDecode(n);
    target.(
      salt1 := DecodeUint(s1),
      salt2 := DecodeUint(s2),
      numElements := DecodeUint(n),
      bits := data[BitsOffset..SerializedLength(target.spec)])
  }

  /**
    Reading what `write` produced into a filter with the same byte size
    reproduces the writer's salts, counter and bits, and keeps the reader's
    own geometry and error rate.
  */
  lemma ReadWrite(f: Bloom, g: Bloom)
    requires g.spec.sizeBytes == f.spec.sizeBytes
    ensures var h := Read(g, Write(f));
      && h.salt1 == f.salt1 && h.salt2 == f.salt2
      && h.numElements == f.numElements && h.bits == f.bits
      && h.spec == g.spec && h.maxErrorRate == g.maxErrorRate
  {
    WidthsMatchTypes();
    var w := Write(f);
    var h := Read(g, w);
    EncodeInjective(h.salt1, f.salt1, Uint32Bytes);
    EncodeInjective(h.salt2, f.salt2, Uint32Bytes);
    EncodeInjective(h.numElements, f.numElements, WordBytes);
  }

  /** With the same geometry and error rate, the round trip gives back the very same filter. */
  lemma ReadWriteIdentity(f: Bloom, g: Bloom)
    requires g.spec == f.spec && g.maxErrorRate == f.maxErrorRate
    ensures Read(g, Write(f)) == f
  {
    ReadWrite(f, g);
  }

  /**
    The other direction: writing a filter just read reproduces the bytes
    that were consumed. Bytes beyond them are ignored.
  */
  lemma WriteRead(g: Bloom, data: seq<byte>)
    requires |data| >= SerializedLength(g.spec)
    ensures Write(Read(g, data)) == data[..SerializedLength(g.spec)]
  {
    var h := Read(g, data);
    var w := Write(h);
    var n := SerializedLength(g.spec);
    assert w == w[..Salt2Offset] + w[Salt2Offset..CounterOffset] + w[CounterOffset..BitsOffset] + w[BitsOffset..];
    assert data[..n] == data[..Salt2Offset] + data[Salt2Offset..CounterOffset] + data[CounterOffset..BitsOffset] + data[BitsOffset..n];
  }

  /** Only the first `SerializedLength` bytes of the input affect the filter `read` produces. */
  lemma ReadIgnoresTrailingBytes(g: Bloom, data: seq<byte>, extra: seq<byte>)
    requires |data| >= SerializedLength(g.spec)
    ensures Read(g, data + extra) == Read(g, data)
  {
    var a, b := Read(g, data + extra), Read(g, data);
    var n := SerializedLength(g.spec);
    assert (data + extra)[..n] == data[..n];
    WriteRead(g, data + extra);
    WriteRead(g, data);
    WidthsMatchTypes();
    EncodeInjective(a.salt1, b.salt1, Uint32Bytes);
    EncodeInjective(a.salt2, b.salt2, Uint32Bytes);
    EncodeInjective(a.numElements, b.numElements, WordBytes);
  }
}
