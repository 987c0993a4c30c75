/**
  The constructor exactly as the source writes it, kept beside the
  corrected `BloomFilterClass.Construct` to exhibit two defects:

  - `capacity > SIZE_MAX` compares a signed long with a size_t, so C turns
    the long into a size_t first. The test can then never succeed, and a
    negative capacity is accepted and reaches `bloom_init` as a huge size.
  - `obj->bloom` is assigned before `bloom_init` reports its status, so a
    failed initialisation leaves a non-null pointer to a filter that was
    never set up, and the guard no longer refuses the object.
*/
module AsWritten {

  import opened Wrappers
  import opened Platform
  import opened BloomState
  import opened BloomFilterClass

  /** The parameter check with C's conversion of `capacity` to size_t in the SIZE_MAX test. */
  function AcceptsParametersAsWritten(capacity: int64, errorRate: real): (ok: bool)
    ensures ok <==> capacity != 0 && 0.0 < errorRate < 1.0
  {
    !(capacity == 0 || LongToSize(capacity) > SizeMax || errorRate <= 0.0 || errorRate >= 1.0)
  }

  /** The memory `bloom` points at: a filter, or whatever a failed `bloom_init` left there. */
  datatype Target = Ready(filter: Bloom) | Uninitialised

  /** The object as the source builds it: `bloom` is a pointer, `None` when null. */
  datatype RawObject = RawObject(bloom: Option<Target>)

  /** A constructor call as written: the warning raised, if any, and the object afterwards. */
  datatype RawConstructed = RawConstructed(warning: Option<Warning>, obj: RawObject)

  const FreshRaw: RawObject := RawObject(None)

  /** The guard every method runs: it refuses exactly an object whose pointer is still null. */
  function GuardPasses(obj: RawObject): (passes: bool)
    ensures !passes <==> obj == FreshRaw
  {
    obj.bloom.Some?
  }

  /** `BloomFilter::__construct` as written: the pointer is set before the status is known. */
  function ConstructAsWritten(obj: RawObject, capacity: int64, errorRate: Option<real>,
                              bloomInit: Initializer): (r: RawConstructed)
    ensures var rate := RequestedErrorRate(errorRate);
      !AcceptsParametersAsWritten(capacity, rate) ==> r == RawConstructed(Some(BadFilterParameters), obj)
    ensures var (rate, outcome) := (RequestedErrorRate(errorRate), bloomInit(LongToSize(capacity), RequestedErrorRate(errorRate)));
      AcceptsParametersAsWritten(capacity, rate) ==>
        && GuardPasses(r.obj)
        && (r.obj.bloom.value.Ready? <==> outcome.Initialized?)
        && (r.obj.bloom.value.Ready? ==> r.obj.bloom.value.filter == outcome.filter)
        && (r.warning.None? <==> outcome.Initialized?)
        && (r.warning.Some? ==> r.warning.value == CouldNotCreateFilter)
  {
    var rate := RequestedErrorRate(errorRate);
    if !AcceptsParametersAsWritten(capacity, rate) then RawConstructed(Some(BadFilterParameters), obj)
    else match bloomInit(LongToSize(capacity), rate)
      case Initialized(f) => RawConstructed(None, RawObject(Some(Ready(f))))
      case InitFailed(_) => RawConstructed(Some(CouldNotCreateFilter), RawObject(Some(Uninitialised)))
  }

  /**
    A capacity of -1 passes the check as written (the corrected check
    refuses it), and `bloom_init` is asked for SIZE_MAX elements: the
    filter attached is the one it builds for that capacity.
  */
  lemma NegativeCapacityAccepted(bloomInit: Initializer)
    ensures AcceptsParametersAsWritten(-1, 0.01)
    ensures !AcceptsParameters(-1, 0.01)
    ensures var r := ConstructAsWritten(FreshRaw, -1, Some(0.01), bloomInit);
      && GuardPasses(r.obj)
      && (bloomInit(SizeMax, 0.01).Initialized? ==> r.obj.bloom.value == Ready(bloomInit(SizeMax, 0.01).filter))
  {
  }

  /**
    A failed `bloom_init` on accepted parameters leaves an object that the
    guard lets through although no filter was ever initialised.
  */
  lemma FailedInitPassesGuard(capacity: int64, errorRate: real, bloomInit: Initializer)
    requires AcceptsParametersAsWritten(capacity, errorRate)
    requires bloomInit(LongToSize(capacity), errorRate).InitFailed?
    ensures var r := ConstructAsWritten(FreshRaw, capacity, Some(errorRate), bloomInit);
      GuardPasses(r.obj) && r.obj.bloom.value == Uninitialised && r.warning == Some(CouldNotCreateFilter)
  {
  }

  /** The corrected constructor in the same situation leaves nothing for the guard to let through. */
  lemma FailedInitCorrected(capacity: int64, errorRate: real, bloomInit: Initializer)
    requires AcceptsParameters(capacity, errorRate)
    requires bloomInit(LongToSize(capacity), errorRate).InitFailed?
    ensures var r := Construct(Fresh, capacity, Some(errorRate), bloomInit);
      r.obj.bloom.None? && r.warning == Some(CouldNotCreateFilter)
  {
  }

  /** The source's view of an object of the corrected model. */
  function Lift(obj: Object): RawObject
  {
    match obj.bloom
    case None => RawObject(None)
    case Some(f) => RawObject(Some(Ready(f)))
  }

  /**
    Away from the two defects (a negative capacity, a failed `bloom_init`)
    the corrected constructor does exactly what the source does, warnings
    included.
  */
  lemma CorrectedAgreesOtherwise(obj: Object, capacity: int64, errorRate: Option<real>,
                                 bloomInit: Initializer)
    requires capacity >= 0
    requires AcceptsParametersAsWritten(capacity, RequestedErrorRate(errorRate)) ==>
      bloomInit(LongToSize(capacity), RequestedErrorRate(errorRate)).Initialized?
    ensures var c := Construct(obj, capacity, errorRate, bloomInit);
      ConstructAsWritten(Lift(obj), capacity, errorRate, bloomInit) == RawConstructed(c.warning, Lift(c.obj))
  {
  }
}
