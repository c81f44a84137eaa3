/**
 Small building blocks shared by the whole model: an optional value (the C
 code's NULL pointers), NUL-free strings (what `strdup` and `strchr` see), the
 first-occurrence search `strchr` performs, and the 32- and 64-bit integer
 widths the bridge converts between.
 */
module Base {

  /** A value that may be absent; `None` plays the C NULL pointer. */
  datatype Option<+T> = None | Some(value: T)

  /** A C string: the characters before the terminating NUL. */
  type CString = s: string | '\0' !in s

  /** `SQLINTEGER`: a signed 32-bit value as reported by the driver. */
  type Int32 = x: int | -0x8000_0000 <= x < 0x8000_0000

  /** `SQLSMALLINT`: a signed 16-bit value, the type of a column count. */
  type Int16 = x: int | -0x8000 <= x < 0x8000

  /** The C conversion `(unsigned int) n` of a signed 16-bit value:
      non-negative values are kept, negative ones wrap modulo 2^32. */
  function ToUInt(n: Int16): (r: nat)
    ensures r < 0x1_0000_0000
    ensures n >= 0 ==> r == n
    ensures n < 0 ==> r >= 0x1_0000_0000 - 0x8000
    ensures (r - n) % 0x1_0000_0000 == 0
  {
    if n >= 0 then n else 0x1_0000_0000 + n
  }

  /** Largest value of `my_ulonglong` (`unsigned long`, 64 bits on LP64). */
  const ULONG_MAX: nat := 0xFFFF_FFFF_FFFF_FFFF

  /** The C conversion `(my_ulonglong) n` of a signed 32-bit value:
      non-negative values are kept, negative ones wrap modulo 2^64. */
  function ToULong(n: Int32): (r: nat)
    ensures r <= ULONG_MAX
    ensures n >= 0 ==> r == n
    ensures n < 0 ==> r > ULONG_MAX - 0x8000_0000
    ensures (r - n) % (ULONG_MAX + 1) == 0
  {
    if n >= 0 then n else ULONG_MAX + 1 + n
  }

  /** `strchr(s + from, c)`: the index of the first `c` at or after `from`. */
  function FindChar(s: string, c: char, from: nat): (r: Option<nat>)
    decreases |s| - from
    ensures r.Some? ==> from <= r.value < |s| && s[r.value] == c
    ensures r.Some? ==> forall k :: from <= k < r.value ==> s[k] != c
    ensures r.None? ==> forall k :: from <= k < |s| ==> s[k] != c
  {
    if from >= |s| then None
    else if s[from] == c then Some(from)
    else FindChar(s, c, from + 1)
  }

  /** The first `n` characters of `s`, or all of it when it is shorter. */
  function Prefix(s: string, n: nat): (r: string)
    ensures |r| <= n && |r| <= |s|
    ensures r == s[..|r|]
    ensures |s| <= n ==> r == s
    ensures |s| > n ==> |r| == n
  {
    if |s| <= n then s else s[..n]
  }
}
