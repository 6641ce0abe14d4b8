/**
 * Integer screen geometry shared by the bird and the pipes: pygame-style
 * rectangles, the collision test between two of them, and the two ways a
 * half-pixel quantity becomes a whole pixel (Python's int() on a float, and
 * the rule by which a Rect stores a fractional coordinate).
 *
 * Quantities that the game keeps as multiples of 0.5 (scroll speed, bird
 * velocity, ground scroll) are represented by their doubled integer value,
 * called "halves" throughout the model.
 */
module Geometry {

  /** An axis-aligned rectangle with its top-left corner at (x, y). */
  datatype Rect = Rect(x: int, y: int, w: int, h: int) {
    function Left(): int { x }
    function Right(): int { x + w }
    function Top(): int { y }
    function Bottom(): int { y + h }
  }

  /** pygame's colliderect: the interiors intersect; touching edges do not count. */
  predicate Overlaps(a: Rect, b: Rect) {
    a.Left() < b.Right() && b.Left() < a.Right() && a.Top() < b.Bottom() && b.Top() < a.Bottom()
  }

  function Min(a: int, b: int): int { if a <= b then a else b }
  function Max(a: int, b: int): int { if a >= b then a else b }
  function Abs(a: int): int { if a < 0 then -a else a }

  /**
   * Python's int() applied to the value h/2: truncation toward zero.
   * Dafny's own division rounds toward negative infinity for a positive
   * divisor, so the negative case is written out.
   */
  function TruncHalf(h: int): (r: int)
    ensures h >= 0 ==> 0 <= 2 * r <= h && h - 2 * r <= 1
    ensures h < 0 ==> h <= 2 * r <= 0 && 2 * r - h <= 1
  {
    if h >= 0 then h / 2 else -((-h) / 2)
  }

  /**
   * How a pygame Rect turns a fractional coordinate into the integer it
   * stores. The library does not show its rule, so the model takes it as a
   * parameter: truncation toward zero, rounding down, or rounding to the
   * nearest integer with halves away from zero.
   */
  datatype Rounding = TowardZero | Down | Nearest

  /** The integer a Rect stores when assigned the value h/2. */
  function StoreHalf(h: int, mode: Rounding): int {
    match mode
    case TowardZero => TruncHalf(h)
    case Down => h / 2
    case Nearest => if h >= 0 then (h + 1) / 2 else -((-h + 1) / 2)
  }

  /** Whatever the rounding, the stored coordinate is within half a pixel of the value, and exact on whole pixels. */
  lemma StoreHalfWithinHalfPixel(h: int, mode: Rounding)
    ensures h - 1 <= 2 * StoreHalf(h, mode) <= h + 1
    ensures h % 2 == 0 ==> 2 * StoreHalf(h, mode) == h
  {
  }
}
