/** Shared geometry of the game: rectangles, the arena, and the Java number
    conversions the entities rely on. */
module Geometry {

  /** An axis-aligned box; (x, y) is its lower-left corner and y grows upwards. */
  datatype Rect = Rect(x: real, y: real, width: real, height: real)

  /** The view port an entity is created for, in whole pixels. */
  datatype Arena = Arena(width: int, height: int)

  /** The rectangle library's overlap test: strict, so boxes that only touch
      along an edge do not overlap. */
  predicate Overlaps(a: Rect, b: Rect)
  {
    a.x < b.x + b.width && a.x + a.width > b.x && a.y < b.y + b.height && a.y + a.height > b.y
  }

  function Abs(r: real): (a: real)
    ensures 0.0 <= a && (a == r || a == -r)
  {
    if r < 0.0 then -r else r
  }

  /** Java's `(int)` cast of a float: truncation toward zero, which differs from
      the floor for negative non-integers. */
  function Trunc(r: real): (i: int)
    ensures 0.0 <= r ==> 0 <= i && i as real <= r < i as real + 1.0
    ensures r < 0.0 ==> i <= 0 && i as real - 1.0 < r <= i as real
  {
    if r >= 0.0 then r.Floor else -((-r).Floor)
  }

  /** Java's `a / 2` on int: the quotient is truncated toward zero. */
  function JavaHalf(a: int): (q: int)
    ensures 0 <= a ==> 0 <= q && 2 * q <= a < 2 * q + 2
    ensures a < 0 ==> q <= 0 && 2 * q - 2 < a <= 2 * q
  {
    if a >= 0 then a / 2 else -((-a) / 2)
  }
}
