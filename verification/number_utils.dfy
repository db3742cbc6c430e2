/**
 * The integer helpers of the number utilities: lower and upper clamps for
 * every Java integer width and for `char`, and the null-defaulting accessors
 * for the boxed integer types.
 */
module NumberUtils {
  import opened Wrappers

  newtype Int8 = x: int | -0x80 <= x < 0x80
  newtype Int16 = x: int | -0x8000 <= x < 0x8000
  newtype Int32 = x: int | -0x8000_0000 <= x < 0x8000_0000
  newtype Int64 = x: int | -0x8000_0000_0000_0000 <= x < 0x8000_0000_0000_0000
  /** Java's `char`: an unsigned UTF-16 code unit. */
  newtype JavaChar = x: int | 0 <= x < 0x1_0000

  // ---------------------------------------------------------------------
  // minLimit / maxLimit.

  /** minLimit: `i`, raised to `limit` when below it; that is, the larger of the two. */
  function MinLimit(i: int, limit: int): (r: int)
    ensures r >= i && r >= limit
    ensures r == i || r == limit
  {
    if i < limit then limit else i
  }

  /** maxLimit: `i`, lowered to `limit` when above it; that is, the smaller of the two. */
  function MaxLimit(i: int, limit: int): (r: int)
    ensures r <= i && r <= limit
    ensures r == i || r == limit
  {
    if i > limit then limit else i
  }

  // The overloads for each width compare the same way; their result is one of
  // their arguments, so it never leaves the type's range.

  function MinLimitInt(i: Int32, limit: Int32): (r: Int32)
    ensures r >= i && r >= limit && (r == i || r == limit)
  {
    MinLimit(i as int, limit as int) as Int32
  }

  function MinLimitLong(l: Int64, limit: Int64): (r: Int64)
    ensures r >= l && r >= limit && (r == l || r == limit)
  {
    MinLimit(l as int, limit as int) as Int64
  }

  function MinLimitShort(s: Int16, limit: Int16): (r: Int16)
    ensures r >= s && r >= limit && (r == s || r == limit)
  {
    MinLimit(s as int, limit as int) as Int16
  }

  function MinLimitByte(b: Int8, limit: Int8): (r: Int8)
    ensures r >= b && r >= limit && (r == b || r == limit)
  {
    MinLimit(b as int, limit as int) as Int8
  }

  function MinLimitChar(c: JavaChar, limit: JavaChar): (r: JavaChar)
    ensures r >= c && r >= limit && (r == c || r == limit)
  {
    MinLimit(c as int, limit as int) as JavaChar
  }

  function MaxLimitInt(i: Int32, limit: Int32): (r: Int32)
    ensures r <= i && r <= limit && (r == i || r == limit)
  {
    MaxLimit(i as int, limit as int) as Int32
  }

  function MaxLimitLong(l: Int64, limit: Int64): (r: Int64)
    ensures r <= l && r <= limit && (r == l || r == limit)
  {
    MaxLimit(l as int, limit as int) as Int64
  }

  function MaxLimitShort(s: Int16, limit: Int16): (r: Int16)
    ensures r <= s && r <= limit && (r == s || r == limit)
  {
    MaxLimit(s as int, limit as int) as Int16
  }

  function MaxLimitByte(b: Int8, limit: Int8): (r: Int8)
    ensures r <= b && r <= limit && (r == b || r == limit)
  {
    MaxLimit(b as int, limit as int) as Int8
  }

  function MaxLimitChar(c: JavaChar, limit: JavaChar): (r: JavaChar)
    ensures r <= c && r <= limit && (r == c || r == limit)
  {
    MaxLimit(c as int, limit as int) as JavaChar
  }

  /** A value is left alone by a clamp exactly when it is already on the right side of the limit. */
  lemma LimitFixedPoints(i: int, limit: int)
    ensures MinLimit(i, limit) == i <==> i >= limit
    ensures MaxLimit(i, limit) == i <==> i <= limit
  {
  }

  /** Clamping twice to the same limit is clamping once. */
  lemma LimitIdempotent(i: int, limit: int)
    ensures MinLimit(MinLimit(i, limit), limit) == MinLimit(i, limit)
    ensures MaxLimit(MaxLimit(i, limit), limit) == MaxLimit(i, limit)
  {
  }

  /** Raising to `lo` then lowering to `hi` keeps a value in [lo, hi], and leaves values already there alone. */
  lemma ClampBetween(i: int, lo: int, hi: int)
    requires lo <= hi
    ensures lo <= MaxLimit(MinLimit(i, lo), hi) <= hi
    ensures lo <= i <= hi ==> MaxLimit(MinLimit(i, lo), hi) == i
    ensures MaxLimit(MinLimit(i, lo), hi) == MinLimit(MaxLimit(i, hi), lo)
  {
  }

  /** Both clamps are monotonic in the value. */
  lemma LimitMonotonic(i: int, j: int, limit: int)
    requires i <= j
    ensures MinLimit(i, limit) <= MinLimit(j, limit)
    ensures MaxLimit(i, limit) <= MaxLimit(j, limit)
  {
  }

  // ---------------------------------------------------------------------
  // safeInteger / safeLong / safeShort / safeByte.

  /** The two-argument accessors: the boxed value when it is not null, otherwise the default. */
  function Safe<T>(value: Option<T>, default: T): (r: T)
    ensures value.Some? ==> r == value.value
    ensures value.None? ==> r == default
  {
    if value.Some? then value.value else default
  }

  /** safeInteger(value): the value, or 0 for null. */
  function SafeInteger(value: Option<Int32>): (r: Int32)
    ensures value.Some? ==> r == value.value
    ensures value.None? ==> r == 0
  {
    Safe(value, 0)
  }

  /** safeLong(value): the value, or 0 for null. */
  function SafeLong(value: Option<Int64>): (r: Int64)
    ensures value.Some? ==> r == value.value
    ensures value.None? ==> r == 0
  {
    Safe(value, 0)
  }

  /** safeShort(value): the value, or 0 for null. */
  function SafeShort(value: Option<Int16>): (r: Int16)
    ensures value.Some? ==> r == value.value
    ensures value.None? ==> r == 0
  {
    Safe(value, 0)
  }

  /** safeByte(value): the value, or 0 for null. */
  function SafeByte(value: Option<Int8>): (r: Int8)
    ensures value.Some? ==> r == value.value
    ensures value.None? ==> r == 0
  {
    Safe(value, 0)
  }

  /** The one-argument accessors keep a present value and turn null into zero. */
  lemma SafeDefaultsToZero(i: Int32, l: Int64, s: Int16, b: Int8)
    ensures SafeInteger(Some(i)) == i && SafeInteger(None) == 0
    ensures SafeLong(Some(l)) == l && SafeLong(None) == 0
    ensures SafeShort(Some(s)) == s && SafeShort(None) == 0
    ensures SafeByte(Some(b)) == b && SafeByte(None) == 0
  {
  }

  /** A present value never depends on the default, and defaulting twice is defaulting once. */
  lemma SafeIgnoresDefault<T>(value: Option<T>, d1: T, d2: T)
    ensures value.Some? ==> Safe(value, d1) == Safe(value, d2)
    ensures Safe(Some(Safe(value, d1)), d2) == Safe(value, d1)
  {
  }
}
