/**
 * Java's `Objects.hash` over a single nullable string, the hash code every
 * domain record derives from its identifier.
 */
module JavaHash {
  import opened Wrappers

  const TwoTo32: int := 0x1_0000_0000
  const MinInt: int := -0x8000_0000
  const MaxInt: int := 0x7FFF_FFFF

  /** Two's-complement wrap-around of Java `int` arithmetic. */
  function Wrap32(x: int): (r: int)
    ensures MinInt <= r <= MaxInt
    ensures (r - x) % TwoTo32 == 0
  {
    var m := x % TwoTo32;
    if m > MaxInt then m - TwoTo32 else m
  }

  /** The UTF-16 code units Java stores for one character. */
  function Utf16(c: char): (units: seq<int>)
    ensures 1 <= |units| <= 2
    ensures forall i | 0 <= i < |units| :: 0 <= units[i] < 0x10000
  {
    var v := c as int;
    if v < 0x10000 then [v]
    else [0xD800 + (v - 0x10000) / 0x400, 0xDC00 + (v - 0x10000) % 0x400]
  }

  /** The UTF-16 code units of a string, in order. */
  function Units(s: string): seq<int> {
    if s == [] then [] else Units(s[..|s| - 1]) + Utf16(s[|s| - 1])
  }

  /** `String.hashCode`: the polynomial hash with base 31 over the code units. */
  function PolyHash(units: seq<int>): int {
    if units == [] then 0
    else Wrap32(31 * PolyHash(units[..|units| - 1]) + units[|units| - 1])
  }

  /** `Objects.hash(id)`: 31 plus the hash code of `id`, or 31 alone when `id` is null. */
  function ObjectsHash(id: Option<string>): (h: int)
    ensures MinInt <= h <= MaxInt
    ensures id.None? ==> h == 31
  {
    Wrap32(31 + (if id.None? then 0 else PolyHash(Units(id.value))))
  }
}
