/**
 Grid geometry shared by the snake and the game controller: integer cells,
 heading vectors, the playing field's bounds and the arrow-key map.
 */
module Grid {

  /** A grid coordinate; headings are cells used as vectors. */
  datatype Cell = Cell(x: int, y: int)

  /** Component-wise vector addition, used to step the head along a heading. */
  function Add(c: Cell, d: Cell): Cell
  {
    Cell(c.x + d.x, c.y + d.y)
  }

  /** The opposite heading. */
  function Negate(d: Cell): Cell
  {
    Cell(-d.x, -d.y)
  }

  /** The cell lies on the field [0, width) x [0, height). */
  predicate InBounds(c: Cell, width: int, height: int)
  {
    0 <= c.x < width && 0 <= c.y < height
  }

  function Max(a: int, b: int): int
  {
    if a < b then b else a
  }

  /**
   The test of Snake.setDirection: the requested heading `d` reverses the
   current one when both component sums are zero, which is exactly when `d`
   is the negation of `current`.
   */
  predicate IsReversal(current: Cell, d: Cell): (r: bool)
    ensures r <==> d == Negate(current)
    ensures r <==> current == Negate(d)
  {
    current.x + d.x == 0 && current.y + d.y == 0
  }

  const Left := Cell(-1, 0)
  const Right := Cell(1, 0)
  const Up := Cell(0, -1)
  const Down := Cell(0, 1)

  /** The keydown handler's table from key names to headings. */
  const Directions: map<string, Cell> :=
    map["ArrowLeft" := Left, "ArrowRight" := Right, "ArrowUp" := Up, "ArrowDown" := Down]

  /** A unit heading along one axis. */
  predicate IsUnit(d: Cell)
  {
    (d.x == 0 && (d.y == 1 || d.y == -1)) || (d.y == 0 && (d.x == 1 || d.x == -1))
  }

  /**
   Every key of the table maps to a unit heading, and the table is closed
   under reversal, so each arrow key has an opposite arrow key.
   */
  lemma DirectionsAreUnitAndClosed()
    ensures forall k :: k in Directions ==> IsUnit(Directions[k])
    ensures forall k :: k in Directions ==> Negate(Directions[k]) in Directions.Values
  {
    assert Directions["ArrowLeft"] == Left;
    assert Directions["ArrowRight"] == Right;
    assert Directions["ArrowUp"] == Up;
    assert Directions["ArrowDown"] == Down;
  }
}
