/** The square playing field shared by the server and the client. */
module Grid {

  /** A grid cell; coordinates are unbounded so that out-of-range cells can be expressed. */
  datatype Cell = Cell(x: int, y: int)

  /** The cell lies on a `size` by `size` grid. */
  predicate InGrid(c: Cell, size: int) {
    0 <= c.x < size && 0 <= c.y < size
  }

  /** JavaScript's `Math.abs` on integers. */
  function Abs(n: int): nat {
    if n < 0 then -n else n
  }

  /** JavaScript's `Math.max` and `Math.min` on integers. */
  function Max(a: int, b: int): int {
    if a < b then b else a
  }

  function Min(a: int, b: int): int {
    if a < b then a else b
  }
}
