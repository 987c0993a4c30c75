# bloomy: the PHP `BloomFilter` binding, modelled in Dafny

`bloomy` is a PHP extension that exposes a Bloom filter as the class
`BloomFilter`. The filter itself (sizing, hashing, bit setting) lives in
`bloom.c`/`bloom.h`, which are not part of this model. The binding in
`php_bloomy.c` has logic of its own, and this project models that logic:

- the constructor's parameter check (capacity and error rate);
- the guard every method runs first ("BloomFilter constructor was not
  called");
- the binary serialiser `write` and the deserialiser `read`;
- how `add`, `has` and `getInfo` turn library results into script values.

The filter state (`bloom_t`) is an immutable record: `BloomState.Bloom`
holds the geometry `spec` (`num_hashes`, `filter_size`, `size_bytes`),
`max_error_rate`, the two 32-bit salts, the W-byte element counter and the
bit array of exactly `size_bytes` bytes. A `BloomFilter` object is
`BloomFilterClass.Object`, whose `bloom` pointer is `None` while null.

**Platform.** The byte layout depends on the producing machine. The model
fixes one platform: LP64, little-endian (x86-64 Linux). There W =
`sizeof(size_t)` = 8, and `long` and `zend_long` are signed 64-bit
integers. `NativeBytes` stores integers least significant byte first.
`Platform` holds the widths, `SIZE_MAX` and C's conversions between long
and size_t.

**Collaborators as parameters.** `bloom_init`, `bloom_add` and
`bloom_contains` are declared in `bloom.h` and defined in `bloom.c`,
neither of which is part of this model. They are passed in as functions:
- `Construct` receives `bloom_init` as a function of the capacity and the
  error rate. It is applied to the capacity converted to size_t and to the
  requested rate, which is 0.01 when none is given. That `bloom_init` takes
  its capacity as a size_t is an assumption, since its prototype is not
  part of this model;
- `Add` receives `bloom_add` as a function from filter and item to a status
  and the updated filter;
- `Has` receives `bloom_contains` as a function of the geometry, both
  salts, the bits and the item.

That last assumption (membership depends on nothing else) is what lets the
round trip be shown to preserve every `has` answer.

**Warnings.** Every E_WARNING the class raises is part of a call's result:
"BloomFilter constructor was not called", "bad filter parameters", "could
not create filter" and "could not add data to filter".

**Length of `read`'s input.** `read` never checks how long its input is
(php_bloomy.c:164-178). `Serial.Read` and `BloomFilterClass.Read`
therefore require the input to hold at least `8 + W + size_bytes` bytes
when a filter is attached. Shorter input is an out-of-bounds read in the
source.

**Capacity check and round trip.**
- The `capacity == 0` and `capacity > SIZE_MAX` tests
  (php_bloomy.c:126-127) show that capacities outside 1..SIZE_MAX are meant
  to be rejected. As written, negative capacities pass (see Findings). The
  model's constructor uses the corrected check, and the as-written check is
  kept in `AsWritten`.
- t.php:28 builds the second filter with the same parameters as the first.
  The code itself only needs the same `size_bytes` to copy salts, counter
  and bits (`Serial.ReadWrite`). `has` is proved to give the same answers
  when the whole geometry matches (`BloomFilterClass.ReadOfWritePreservesHas`),
  because the number of hashes and the bit count also feed the lookup.

## Model

| member | source | states |
|---|---|---|
| NativeBytes.EncodeUint | php_bloomy.c:194-198 | the n bytes that hold x, least significant byte first; the result has length n |
| NativeBytes.DecodeUint | php_bloomy.c:171-175 | the value the bytes hold, which is below 256 raised to the number of bytes |
| NativeBytes.DecodeEncode | php_bloomy.c:194-198 | an integer stored in n native-order bytes is read back unchanged |
| NativeBytes.EncodeDecode | php_bloomy.c:171-175 | every byte string is the stored form of the integer it is read as |
| NativeBytes.EncodeInjective | php_bloomy.c:194-198 | two integers of the same width are stored as equal bytes only when they are equal |
| Platform.LongToSize | php_bloomy.c:126-127 | comparing a long with SIZE_MAX converts it to a size_t congruent to it modulo 2^64 |
| Platform.SizeToLong | php_bloomy.c:284 | storing the size_t counter in a zend_long gives the signed value congruent to it modulo 2^64 |
| Platform.ConversionsInverse | php_bloomy.c:284 | the long-to-size_t and size_t-to-long conversions undo each other, and a non-negative long is unchanged |
| Serial.SerializedLength | php_bloomy.c:189 | the serialised length is 4 + 4 + W + size_bytes |
| Serial.Write | php_bloomy.c:183-206 | output length is the serialised length; bytes [0,4) store salt1, [4,8) salt2, [8,8+W) the counter, and the rest equal the bit array byte for byte |
| Serial.Read | php_bloomy.c:157-181 | salt1, salt2 and the counter are the values stored at offsets 0, 4 and 8; the bits are exactly the size_bytes input bytes from offset 8+W; geometry and error rate are unchanged; input shorter than 8+W+size_bytes is excluded |
| Serial.ReadWrite | php_bloomy.c:171-201 | reading write(F) into a filter G with the same size_bytes gives F's salts, counter and bits and keeps G's geometry and error rate |
| Serial.ReadWriteIdentity | php_bloomy.c:171-201 | with equal geometry and error rate, reading write(F) gives back F itself |
| Serial.WriteRead | php_bloomy.c:171-201 | writing a filter just read reproduces the first 8+W+size_bytes bytes of the input |
| Serial.ReadIgnoresTrailingBytes | php_bloomy.c:164-178 | bytes after the first 8+W+size_bytes do not affect what read produces |
| BloomFilterClass.AcceptsParameters | php_bloomy.c:126-135 | parameters are accepted exactly when capacity is positive and 0 < error_rate < 1; an accepted capacity converts to the same size_t |
| BloomFilterClass.RequestedErrorRate | php_bloomy.c:116-120 | the constructor uses the given error rate, or 0.01 when none is given |
| BloomFilterClass.Construct | php_bloomy.c:126-154 | rejected parameters warn "bad filter parameters" and leave the object unchanged; otherwise bloom_init is called with the capacity as a size_t and the requested rate, its filter is attached exactly when it succeeded, and "could not create filter" is warned exactly when it did not |
| BloomFilterClass.ConstructFresh | php_bloomy.c:126-154 | a new object has a usable filter exactly when capacity > 0, 0 < error_rate < 1 and bloom_init succeeded for them; zero capacity or a rate outside (0,1) leaves none |
| BloomFilterClass.DefaultRateReachesInit | php_bloomy.c:117-146 | omitting the error rate behaves exactly like passing 0.01, including the rate handed to bloom_init |
| BloomFilterClass.Read | php_bloomy.c:157-181 | with no filter attached, warns and changes nothing; otherwise returns true, keeps geometry, error rate and bit-array length, and the new state writes back as the consumed input bytes |
| BloomFilterClass.Write | php_bloomy.c:183-206 | with no filter attached, warns; otherwise returns 8+W+size_bytes bytes that read back into the same filter give that filter; the object is never changed |
| BloomFilterClass.Add | php_bloomy.c:212-234 | with no filter attached, refuses; otherwise the filter becomes what bloom_add left, the reply is true exactly when bloom_add succeeded, and otherwise it is false with the warning "could not add data to filter" |
| BloomFilterClass.Has | php_bloomy.c:239-263 | with no filter attached, warns; otherwise false exactly when bloom_contains reports not found, any other status reads as true; the object is never changed |
| BloomFilterClass.GetInfo | php_bloomy.c:268-285 | with no filter attached, warns; otherwise reports the stored error rate and geometry, and the counter as the signed 64-bit number whose size_t form is the counter |
| BloomFilterClass.UnconstructedIsInert | php_bloomy.c:84-89 | on an object with no filter attached, read, write, add, has and getInfo all warn "constructor was not called", return nothing and leave the object unchanged |
| BloomFilterClass.AddThenHas | t.php:37-38 | if bloom_contains never misses an item bloom_add reported as added, then has returns true after an add of the same item returned true |
| BloomFilterClass.ReadOfWritePreservesHas | t.php:28-32 | reading write(F) into a filter of the same geometry makes has answer every item as F does, whatever bloom_contains computes from geometry, salts and bits |
| BloomFilterClass.ReadOfWritePreservesCount | php_bloomy.c:171-198 | the same round trip carries over the num_items that getInfo reports |
| AsWritten.AcceptsParametersAsWritten | php_bloomy.c:126-135 | the check as written accepts exactly when capacity != 0 and 0 < error_rate < 1: the SIZE_MAX test can never succeed |
| AsWritten.NegativeCapacityAccepted | php_bloomy.c:116-146 | capacity -1 passes the check as written and is refused by the corrected check; bloom_init is then called with SIZE_MAX, and the filter it builds for that capacity is attached |
| AsWritten.ConstructAsWritten | php_bloomy.c:126-154 | rejected parameters warn and leave the object unchanged; once they pass, bloom_init gets the capacity converted to size_t, and the pointer is set whatever it returns: it points at bloom_init's filter exactly when bloom_init succeeded, and "could not create filter" is warned otherwise |
| AsWritten.GuardPasses | php_bloomy.c:84-89 | the guard refuses exactly an object whose bloom pointer is still null |
| AsWritten.FailedInitPassesGuard | php_bloomy.c:84-89 | after bloom_init fails on accepted parameters, the guard lets every method through although no filter was initialised |
| AsWritten.FailedInitCorrected | php_bloomy.c:145-154 | with the corrected constructor, a failed bloom_init leaves no filter attached and warns "could not create filter" |
| AsWritten.CorrectedAgreesOtherwise | php_bloomy.c:126-154 | for a non-negative capacity with no failed bloom_init, the corrected constructor produces the same object and the same warning as the source |

## Findings

| source | as written | input that shows it | evidently intended | confidence | as-written member | corrected member |
|---|---|---|---|---|---|---|
| php_bloomy.c:126-127 | `capacity > SIZE_MAX` compares a signed long with a size_t, so the long is converted to size_t first and the test can never succeed | capacity = -1, error_rate = 0.01: accepted, and bloom_init is asked for SIZE_MAX elements | reject every capacity that is not positive | not executed; high on LP64 | AsWritten.AcceptsParametersAsWritten | BloomFilterClass.AcceptsParameters |
| php_bloomy.c:145-154 | `obj->bloom` is assigned before `bloom_init` reports failure and is never reset | any accepted parameters with a failing bloom_init: the object keeps a non-null bloom and the guard at line 86 lets methods run on an uninitialised filter | leave `bloom` null (and free it) when bloom_init fails | not executed; high | AsWritten.FailedInitPassesGuard | BloomFilterClass.Construct |

## Left out

- The filter library (`bloom_init`, `bloom_add`, `bloom_contains`, `bloom_clean`) is not part of this model. Its results are parameters, and no hash function or sizing formula is modelled.
- Seed handling (`GENERATE_SEED`, `srand`, php_bloomy.c:137-141) is process randomness and global state. The seed argument is not modelled; the salts arrive inside `bloom_init`'s outcome.
- Argument parsing (`zend_parse_parameters` failures) is left out. Arguments arrive already typed, and the early returns on bad argument types are not modelled.
- Object lifecycle and module glue (`php_bloom_new` beyond its zeroed `bloom`, `php_bloom_free_storage`, `php_bloom_destroy`, arginfo, the method table, `MINIT`, `MINFO`, `ZEND_GET_MODULE`) are left out.
- `ZVAL_NULL(object)` on a failed construction is left out. It nulls the call's `$this` value and does not touch the object's `bloom` field, which is what the model tracks.
- Host memory handling in `write` is left out: `malloc`, `RETURN_STRINGL` and the unreachable `free` at php_bloomy.c:205, which leaks the buffer. Only the produced bytes are modelled.
- Calling the constructor a second time on an object that already has a filter overwrites the pointer and leaks the old filter. Leaking is not modelled; the model just replaces the filter.
- BloomFilterClass.AcceptsParameters: the error rate is a `real`, so a NaN `double`, which passes both comparisons in the source, is not modelled.
- BloomFilterClass.GetInfo: the types of the `spec` fields are declared in `bloom.h`, which is not part of this model. They are reported unchanged, without any conversion to zend_long.
- The addition of the serialised length in size_t (php_bloomy.c:189) is not modelled as wrapping; it cannot overflow for a bit array that was actually allocated.
- Other platforms (32-bit `size_t`, big-endian byte order, 32-bit `long` as on Windows) are not modelled; the byte layout and the capacity check are stated for LP64 little-endian only.
- The script t.php is used only for the read-after-write scenario (lines 22-32) and the add-then-has check (lines 37-38). Its timing, file I/O and `sleep` are not modelled. Its "must have it" comment on `has("foo")` is not backed by its loop, which inserts only "foo1" to "foo19999999".
- BloomFilterClass.GetInfo: the PHP array's key names are not modelled; the report is a record with one field per key. The keys are passed with `ZEND_STRS`, which supplies `sizeof` of the literal and so counts the terminating NUL, so on PHP 7 the stored keys may end in a NUL byte and lookups such as `$info['error_rate']` may find nothing. This was read from the macro definitions, not observed.
