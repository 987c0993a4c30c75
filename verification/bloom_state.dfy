/**
  The state of one filter (a `bloom_t`) as the binding sees it. The sizing,
  hashing and bit-setting code that fills it in lives outside this model.
*/
module BloomState {

  import opened NativeBytes
  import opened Platform

  /** The geometry computed when the filter is initialised. */
  datatype Spec = Spec(numHashes: nat, filterSize: nat, sizeBytes: nat)

  datatype State = State(
    spec: Spec,
    maxErrorRate: real,
    salt1: uint32,
    salt2: uint32,
    numElements: usize,
    bits: seq<byte>)

  /** A filter whose bit array holds the `size_bytes` bytes allocated for it. */
  type Bloom = s: State | |s.bits| == s.spec.sizeBytes
    witness State(Spec(0, 0, 0), 0.0, 0, 0, 0, [])
}
