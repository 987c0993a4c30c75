/**
  The `BloomFilter` class of the extension: the constructor's parameter
  check, the "constructor was not called" guard every method runs first,
  and the methods `read`, `write`, `add`, `has` and `getInfo`.

  The calls into the filter library (`bloom_init`, `bloom_add`,
  `bloom_contains`) are not part of this model: they arrive as function
  parameters, and the model states what the binding does with their results.
*/
module BloomFilterClass {

  import opened Wrappers
  import opened NativeBytes
  import opened Platform
  import opened BloomState
  import Serial

  /** The error rate used when the constructor is given none. */
  const DefaultErrorRate: real := 0.01

  /** A `bloom_return` status code. */
  datatype BloomReturn = BloomSuccess | BloomNotFound | BloomOtherStatus(code: int)

  /** What `bloom_init` did: a ready filter, or a failure status. */
  datatype InitOutcome = Initialized(filter: Bloom) | InitFailed(status: BloomReturn)

  /** `bloom_init`, given the capacity as a size_t and the error rate. */
  type Initializer = (usize, real) -> InitOutcome

  /** What `bloom_add` returned, and the filter it left behind. */
  datatype AddOutcome = AddOutcome(status: BloomReturn, after: Bloom)

  /** `bloom_add`, which reads and updates the filter. */
  type Inserter = (Bloom, seq<byte>) -> AddOutcome

  /** `bloom_contains`, a function of the geometry, both salts, the bits and the item. */
  type Membership = (Spec, uint32, uint32, seq<byte>, seq<byte>) -> BloomReturn

  /** The E_WARNING messages the class raises. */
  datatype Warning =
    | ConstructorNotCalled  // "BloomFilter constructor was not called"
    | BadFilterParameters   // "bad filter parameters"
    | CouldNotCreateFilter  // "could not create filter"
    | CouldNotAddData       // "could not add data to filter"

  /** A `BloomFilter` object: its `bloom` pointer, null until a filter is attached. */
  datatype Object = Object(bloom: Option<Bloom>)

  /** A freshly allocated object: its storage is zeroed, so `bloom` is null. */
  const Fresh: Object := Object(None)

  /**
    A method call: the warning raised, if any; the value returned to the
    script, `None` when the method returns nothing; the object afterwards.
  */
  datatype Call<+T> = Call(warning: Option<Warning>, reply: Option<T>, obj: Object)

  /** A constructor call: the warning raised, if any, and the object afterwards. */
  datatype Constructed = Constructed(warning: Option<Warning>, obj: Object)

  /** What the guard does on an object with no filter: warn and return nothing. */
  function Refused<T>(obj: Object): Call<T>
  {
    Call(Some(ConstructorNotCalled), None, obj)
  }

  /** The report `getInfo` returns. */
  datatype Info = Info(
    errorRate: real,
    numHashes: nat,
    filterSize: nat,
    filterSizeInBytes: nat,
    numItems: int64)

  /**
    The constructor's parameter check: a positive capacity that fits a
    size_t and an error rate strictly between 0 and 1. An accepted capacity
    converts to the same positive size_t value.
  */
  function AcceptsParameters(capacity: int64, errorRate: real): (ok: bool)
    ensures ok <==> 0 < capacity && 0.0 < errorRate < 1.0
    ensures ok ==> 1 <= LongToSize(capacity) == capacity
  {
    0 < capacity && capacity <= SizeMax && 0.0 < errorRate && errorRate < 1.0
  }

  /** The error rate the constructor uses: the one given, or the default. */
  function RequestedErrorRate(errorRate: Option<real>): (r: real)
    ensures errorRate.Some? ==> r == errorRate.value
    ensures errorRate.None? ==> r == 0.01
  {
    match errorRate
    case Some(e) => e
    case None => DefaultErrorRate
  }

  /**
    `BloomFilter::__construct`. Rejected parameters raise "bad filter
    parameters" and leave the object as it was. Otherwise `bloom_init` is
    called with the capacity and the requested rate; a filter is attached
    exactly when it succeeded, and "could not create filter" is raised
    exactly when it did not.
  */
  function Construct(obj: Object, capacity: int64, errorRate: Option<real>, bloomInit: Initializer): (r: Constructed)
    ensures var rate := RequestedErrorRate(errorRate);
      !AcceptsParameters(capacity, rate) ==> r == Constructed(Some(BadFilterParameters), obj)
    ensures var (rate, outcome) := (RequestedErrorRate(errorRate), bloomInit(LongToSize(capacity), RequestedErrorRate(errorRate)));
      AcceptsParameters(capacity, rate) ==>
        && (r.obj.bloom.Some? <==> outcome.Initialized?)
        && (r.obj.bloom.Some? ==> r.obj.bloom.value == outcome.filter)
        && (r.warning.None? <==> r.obj.bloom.Some?)
        && (r.warning.Some? ==> r.warning.value == CouldNotCreateFilter)
  {
    var rate := RequestedErrorRate(errorRate);
    if !AcceptsParameters(capacity, rate) then Constructed(Some(BadFilterParameters), obj)
    else match bloomInit(LongToSize(capacity), rate)
      case Initialized(f) => Constructed(None, Object(Some(f)))
      case InitFailed(_) => Constructed(Some(CouldNotCreateFilter), Object(None))
  }

  /**
    A new object ends up with a usable filter exactly when the capacity is
    positive, the error rate lies strictly between 0 and 1 and `bloom_init`
    succeeded for them; in every other case the guard refuses all later calls.
  */
  lemma ConstructFresh(capacity: int64, errorRate: real, bloomInit: Initializer)
    ensures Construct(Fresh, capacity, Some(errorRate), bloomInit).obj.bloom.Some? <==>
      capacity > 0 && 0.0 < errorRate < 1.0 && bloomInit(capacity, errorRate).Initialized?
    ensures capacity == 0 || errorRate <= 0.0 || errorRate >= 1.0 ==>
      Construct(Fresh, capacity, Some(errorRate), bloomInit).obj.bloom.None?
  {
  }

  /** Leaving out the error rate is the same as passing 0.01, down to the call of `bloom_init`. */
  lemma DefaultRateReachesInit(obj: Object, capacity: int64, bloomInit: Initializer)
    ensures Construct(obj, capacity, None, bloomInit) == Construct(obj, capacity, Some(0.01), bloomInit)
  {
  }

  /** `BloomFilter::read`: overwrite the attached filter's salts, counter and bits from `data`. */
  function Read(obj: Object, data: seq<byte>): (r: Call<bool>)
    requires obj.bloom.Some? ==> |data| >= Serial.SerializedLength(obj.bloom.value.spec)
    ensures obj.bloom.None? ==> r == Refused(obj)
    ensures obj.bloom.Some? ==> r.warning.None? && r.reply == Some(true) && r.obj.bloom.Some?
    ensures obj.bloom.Some? ==>
      var (before, after) := (obj.bloom.value, r.obj.bloom.value);
      && after.spec == before.spec
      && after.maxErrorRate == before.maxErrorRate
      && |after.bits| == before.spec.sizeBytes
      && Serial.Write(after) == data[..Serial.SerializedLength(before.spec)]
  {
    match obj.bloom
    case None => Refused(obj)
    case Some(b) =>
      Serial.WriteRead(b, data);
      Call(None, Some(true), Object(Some(Serial.Read(b, data))))
  }

  /** `BloomFilter::write`: the serialised filter; the object is not changed. */
  function Write(obj: Object): (r: Call<seq<byte>>)
    ensures obj.bloom.None? ==> r == Refused(obj)
    ensures r.obj == obj
    ensures obj.bloom.Some? ==>
      && r.warning.None? && r.reply.Some?
      && |r.reply.value| == Serial.SerializedLength(obj.bloom.value.spec)
      && Serial.Read(obj.bloom.value, r.reply.value) == obj.bloom.value
  {
    match obj.bloom
    case None => Refused(obj)
    case Some(b) =>
      Serial.ReadWriteIdentity(b, b);
      Call(None, Some(Serial.Write(b)), obj)
  }

  /**
    `BloomFilter::add`: the filter becomes whatever `bloom_add` left. The
    script sees true exactly when `bloom_add` reported success; otherwise
    "could not add data to filter" is raised and it sees false.
  */
  function Add(obj: Object, item: seq<byte>, bloomAdd: Inserter): (r: Call<bool>)
    ensures obj.bloom.None? ==> r == Refused(obj)
    ensures obj.bloom.Some? ==>
      var outcome := bloomAdd(obj.bloom.value, item);
      && r.obj.bloom == Some(outcome.after)
      && r.reply.Some?
      && (r.reply.value <==> outcome.status == BloomSuccess)
      && (r.warning.None? <==> r.reply.value)
      && (r.warning.Some? ==> r.warning.value == CouldNotAddData)
  {
    match obj.bloom
    case None => Refused(obj)
    case Some(b) =>
      var outcome := bloomAdd(b, item);
      if outcome.status == BloomSuccess then Call(None, Some(true), Object(Some(outcome.after)))
      else Call(Some(CouldNotAddData), Some(false), Object(Some(outcome.after)))
  }

  /** What `bloom_contains` says about `item` in the attached filter. */
  function Lookup(b: Bloom, item: seq<byte>, contains: Membership): BloomReturn
  {
    contains(b.spec, b.salt1, b.salt2, b.bits, item)
  }

  /**
    `BloomFilter::has`: false exactly when `bloom_contains` reports
    "not found"; every other status, failures included, reads as true.
    The object is not changed and no warning is raised.
  */
  function Has(obj: Object, item: seq<byte>, contains: Membership): (r: Call<bool>)
    ensures obj.bloom.None? ==> r == Refused(obj)
    ensures r.obj == obj
    ensures obj.bloom.Some? ==>
      && r.warning.None? && r.reply.Some?
      && (!r.reply.value <==> Lookup(obj.bloom.value, item, contains) == BloomNotFound)
  {
    match obj.bloom
    case None => Refused(obj)
    case Some(b) => Call(None, Some(Lookup(b, item, contains) != BloomNotFound), obj)
  }

  /**
    `BloomFilter::getInfo`: the stored error rate, geometry and counter.
    The counter is a size_t stored into a zend_long, so the reported count
    is the counter read back as a signed 64-bit number.
  */
  function GetInfo(obj: Object): (r: Call<Info>)
    ensures obj.bloom.None? ==> r == Refused(obj)
    ensures r.obj == obj
    ensures obj.bloom.Some? ==>
      r.warning.None? && r.reply.Some? &&
      var (b, info) := (obj.bloom.value, r.reply.value);
      && info.errorRate == b.maxErrorRate
      && info.numHashes == b.spec.numHashes
      && info.filterSize == b.spec.filterSize
      && info.filterSizeInBytes == b.spec.sizeBytes
      && LongToSize(info.numItems) == b.numElements
      && (b.numElements < 0x8000_0000_0000_0000 ==> info.numItems == b.numElements)
  {
    match obj.bloom
    case None => Refused(obj)
    case Some(b) =>
      ConversionsInverse(0, b.numElements);
      Call(None, Some(Info(b.maxErrorRate, b.spec.numHashes, b.spec.filterSize, b.spec.sizeBytes,
                           SizeToLong(b.numElements))), obj)
  }

  /**
    The guard: on an object with no filter attached every method warns
    that the constructor was not called, returns nothing and leaves the
    object as it was.
  */
  lemma UnconstructedIsInert(obj: Object, data: seq<byte>, bloomAdd: Inserter, contains: Membership)
    requires obj.bloom.None?
    ensures Read(obj, data) == Call(Some(ConstructorNotCalled), None, obj)
    ensures Write(obj) == Call(Some(ConstructorNotCalled), None, obj)
    ensures Add(obj, data, bloomAdd) == Call(Some(ConstructorNotCalled), None, obj)
    ensures Has(obj, data, contains) == Call(Some(ConstructorNotCalled), None, obj)
    ensures GetInfo(obj) == Call(Some(ConstructorNotCalled), None, obj)
  {
  }

  /** The filter library's promise that an item it reports as added is never reported missing. */
  ghost predicate NoFalseNegatives(bloomAdd: Inserter, contains: Membership)
  {
    forall b: Bloom, item: seq<byte> {:trigger bloomAdd(b, item)} ::
      bloomAdd(b, item).status == BloomSuccess ==>
        Lookup(bloomAdd(b, item).after, item, contains) != BloomNotFound
  }

  /**
    When the library keeps that promise, an `add` that returned true is
    followed by `has` returning true for the same item.
  */
  lemma AddThenHas(obj: Object, item: seq<byte>, bloomAdd: Inserter, contains: Membership)
    requires NoFalseNegatives(bloomAdd, contains)
    ensures var added := Add(obj, item, bloomAdd);
      added.reply == Some(true) ==> Has(added.obj, item, contains).reply == Some(true)
  {
  }

  /**
    Writing one filter and reading the bytes into another of the same
    geometry makes `has` answer every item as the first filter does.
  */
  lemma ReadOfWritePreservesHas(f: Object, g: Object, item: seq<byte>, contains: Membership)
    requires f.bloom.Some? && g.bloom.Some?
    requires g.bloom.value.spec == f.bloom.value.spec
    ensures var g' := Read(g, Write(f).reply.value).obj;
      Has(g', item, contains).reply == Has(f, item, contains).reply
  {
    Serial.ReadWrite(f.bloom.value, g.bloom.value);
  }

  /** The same round trip carries over the counter `getInfo` reports. */
  lemma ReadOfWritePreservesCount(f: Object, g: Object)
    requires f.bloom.Some? && g.bloom.Some?
    requires g.bloom.value.spec.sizeBytes == f.bloom.value.spec.sizeBytes
    ensures var g' := Read(g, Write(f).reply.value).obj;
      GetInfo(g').reply.value.numItems == GetInfo(f).reply.value.numItems
  {
    Serial.ReadWrite(f.bloom.value, g.bloom.value);
  }
}
