/** UTF-8 validity (section 4 of RFC 3629), which the runtime requires of a `string` field. */
module Utf8 {
  import opened Prelude

  predicate Tail(b: byte) {
    0x80 <= b <= 0xBF
  }

  /** Length of the character `b` begins with, or 0 when there is none. */
  function Lead(b: bytes): (n: nat)
    ensures n <= |b|
  {
    if b == [] then 0
    else if b[0] <= 0x7F then 1
    else if |b| >= 2 && 0xC2 <= b[0] <= 0xDF && Tail(b[1]) then 2
    else if |b| >= 3 && Tail(b[2]) && (
              || (b[0] == 0xE0 && 0xA0 <= b[1] <= 0xBF)
              || (b[0] == 0xED && 0x80 <= b[1] <= 0x9F)
              || ((0xE1 <= b[0] <= 0xEC || 0xEE <= b[0] <= 0xEF) && Tail(b[1]))) then 3
    else if |b| >= 4 && Tail(b[2]) && Tail(b[3]) && (
              || (b[0] == 0xF0 && 0x90 <= b[1] <= 0xBF)
              || (b[0] == 0xF4 && 0x80 <= b[1] <= 0x8F)
              || (0xF1 <= b[0] <= 0xF3 && Tail(b[1]))) then 4
    else 0
  }

  predicate Valid(b: bytes)
    decreases |b|
  {
    b == [] || (Lead(b) > 0 && Valid(b[Lead(b)..]))
  }

  /** A `str` that encodes, held as its UTF-8 bytes. */
  type Text = b: bytes | Valid(b) witness []
}
