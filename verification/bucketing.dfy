/**
 * `Hasher` and `Bucketer`: a user identifier is hashed with MurmurHash3
 * (x86, 32 bits) under the bucket's seed, the unsigned hash is read as a
 * signed 32-bit integer, and its absolute value modulo the bucket's slot
 * size picks the slot number.
 */
module Bucketing {
  import opened Wrappers
  import opened Model

  const TWO_31: int := 0x8000_0000
  const TWO_32: int := 0x1_0000_0000

  type U32 = x: int | 0 <= x < 0x1_0000_0000

  /**
   * The hash function of the `murmurhash3` gem, `MurmurHash3::V32.str_hash`,
   * which the model takes as given: any function from (data, seed) to an
   * unsigned 32-bit value.
   */
  datatype Hasher = Hasher(murmur: (string, int) -> U32)

  /** Bit 31 of an unsigned 32-bit value (`u & 0x80000000`, shifted down). */
  function Bit31(u: U32): (r: int)
    ensures r == 0 <==> u < TWO_31
  {
    u / TWO_31 % 2
  }

  /** `u ^ 0xFFFFFFFF` on an unsigned 32-bit value: every one of the 32 bits flipped. */
  function FlipAll32(u: U32): U32
  {
    0xFFFF_FFFF - u
  }

  /** The unsigned-to-signed conversion of `Hasher#hash`: two's complement negation when bit 31 is set. */
  function ToSigned(u: U32): (r: int)
    ensures -TWO_31 <= r < TWO_31
    ensures u < TWO_31 ==> r == u
    ensures u >= TWO_31 ==> r == u - TWO_32
    ensures (r - u) % TWO_32 == 0
  {
    if Bit31(u) == 0 then u
    else -(FlipAll32(u) + 1)
  }

  /** `Hasher#hash`: the signed 32-bit MurmurHash3 of the data under the seed. */
  function Hash(hasher: Hasher, data: string, seed: int): (r: int)
    ensures -TWO_31 <= r < TWO_31
    ensures (r - hasher.murmur(data, seed)) % TWO_32 == 0
  {
    ToSigned(hasher.murmur(data, seed))
  }

  function Abs(x: int): nat
  {
    if x < 0 then -x else x
  }

  /** Ruby's `Integer#/`: floored division. */
  function FloorDiv(a: int, b: int): int
    requires b != 0
  {
    if b > 0 || a % b == 0 then a / b else a / b - 1
  }

  /**
   * Ruby's `Integer#%`: the remainder of floored division, which takes the
   * sign of the divisor; division by zero raises `ZeroDivisionError`.
   */
  function FloorMod(a: int, b: int): (r: Result<int>)
    ensures b == 0 <==> r.Failure?
    ensures b > 0 ==> r.Ok? && 0 <= r.value < b
    ensures b < 0 ==> r.Ok? && b < r.value <= 0
    ensures r.Ok? ==> a == b * FloorDiv(a, b) + r.value
  {
    if b == 0 then Failure("divided by 0")
    else if b > 0 || a % b == 0 then Ok(a % b)
    else Ok(a % b + b)
  }

  /** `Bucketer#calculate_slot_number`: `|hash| % slot_size`. */
  function CalculateSlotNumber(hasher: Hasher, seed: int, slotSize: int, value: string): (r: Result<int>)
    ensures slotSize == 0 <==> r.Failure?
    ensures slotSize > 0 ==> r.Ok? && 0 <= r.value < slotSize
    ensures r.Ok? ==> Abs(Hash(hasher, value, seed)) == slotSize * FloorDiv(Abs(Hash(hasher, value, seed)), slotSize) + r.value
  {
    FloorMod(Abs(Hash(hasher, value, seed)), slotSize)
  }

  /** `Bucketer#bucketing`: the first of the bucket's slots holding the identifier's slot number, if any. */
  function Bucketing(hasher: Hasher, bucket: Bucket, identifier: string): (r: Result<Option<Slot>>)
    ensures r.Failure? <==> bucket.slotSize == 0
    ensures r.Ok? && r.value.Some? ==>
      r.value.value in bucket.slots &&
      SlotContains(r.value.value, CalculateSlotNumber(hasher, bucket.seed, bucket.slotSize, identifier).value)
    ensures r.Ok? && r.value.None? ==>
      forall i :: 0 <= i < |bucket.slots| ==>
        !SlotContains(bucket.slots[i], CalculateSlotNumber(hasher, bucket.seed, bucket.slotSize, identifier).value)
    ensures r.Failure? ==> r.error == CalculateSlotNumber(hasher, bucket.seed, bucket.slotSize, identifier).error
    ensures r.Ok? && r.value.Some? ==>
      var n := CalculateSlotNumber(hasher, bucket.seed, bucket.slotSize, identifier).value;
      exists i :: 0 <= i < |bucket.slots| && bucket.slots[i] == r.value.value &&
                  forall j :: 0 <= j < i ==> !SlotContains(bucket.slots[j], n)
  {
    var slotNumber := CalculateSlotNumber(hasher, bucket.seed, bucket.slotSize, identifier);
    if slotNumber.Failure? then Failure(slotNumber.error)
    else Ok(GetSlotOrNil(bucket, slotNumber.value))
  }

  /** Slots that together cover every slot number of the bucket. */
  predicate CoversAllSlotNumbers(bucket: Bucket)
  {
    forall n :: 0 <= n < bucket.slotSize ==> GetSlotOrNil(bucket, n).Some?
  }

  /** A bucket whose slots cover [0, slot size) allocates every identifier. */
  lemma BucketingOfCoveringBucket(hasher: Hasher, bucket: Bucket, identifier: string)
    requires bucket.slotSize > 0 && CoversAllSlotNumbers(bucket)
    ensures Bucketing(hasher, bucket, identifier).Ok?
    ensures Bucketing(hasher, bucket, identifier).value.Some?
  {
    var n := CalculateSlotNumber(hasher, bucket.seed, bucket.slotSize, identifier).value;
    assert GetSlotOrNil(bucket, n).Some?;
  }

  /** A bucket without slots allocates nobody. */
  lemma BucketingOfEmptyBucket(hasher: Hasher, bucket: Bucket, identifier: string)
    requires bucket.slotSize != 0 && bucket.slots == []
    ensures Bucketing(hasher, bucket, identifier) == Ok(None)
  {
  }

  /**
   * With a hash of 42 and 10000 slots the slot number is 42: the slot
   * [0, 42) misses it and the slot [0, 43) holds it.
   */
  lemma BucketingWithFixedHash(identifier: string)
    ensures var hasher := Hasher((data: string, seed: int) => 42);
      && Bucketing(hasher, Bucket(1, 320, 10000, [Slot(0, 42, 420)]), identifier) == Ok(None)
      && Bucketing(hasher, Bucket(1, 320, 10000, [Slot(0, 43, 420)]), identifier) == Ok(Some(Slot(0, 43, 420)))
  {
    var hasher := Hasher((data: string, seed: int) => 42);
    assert CalculateSlotNumber(hasher, 320, 10000, identifier) == Ok(42);
  }
}
