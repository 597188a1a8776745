/** Shared vocabulary: optional values and the unit every instant is counted in. */
module Prelude {

  datatype Option<+T> = None | Some(value: T)

  // Instants and durations are integers in microseconds, the resolution of both a
  // Python datetime and a Postgres timestamptz.
  const SECOND: int := 1_000_000
  const MINUTE: int := 60 * SECOND
  const DAY: int := 86_400 * SECOND

  function Max(a: int, b: int): int {
    if a < b then b else a
  }

  function Min(a: int, b: int): int {
    if a < b then a else b
  }

  /** The UTC calendar day of an instant, counted from 1970-01-01. */
  function UtcDay(t: int): int {
    t / DAY
  }

  /** What str.strip() and str.split() take for whitespace. */
  predicate IsSpace(c: char) {
    var n := c as int;
    0x09 <= n <= 0x0d || 0x1c <= n <= 0x20 || n == 0x85 || n == 0xa0 || n == 0x1680 ||
    0x2000 <= n <= 0x200a || n == 0x2028 || n == 0x2029 || n == 0x202f || n == 0x205f || n == 0x3000
  }

  /** `not s.strip()`. */
  predicate Blank(s: string) {
    forall i :: 0 <= i < |s| ==> IsSpace(s[i])
  }
}
