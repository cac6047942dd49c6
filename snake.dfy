/**
 The snake of game.js:1-57: a head-first body of cells, a current and a
 pending heading, a one-shot growth flag and a tick interval ("speed").

 The value type SnakeState and the functions over it specify each operation;
 the class Snake performs the same operations in place, and each of its
 methods is proved to produce exactly the state the specification gives.
 */
module SnakeModel {
  import opened Grid

  /** Where reset puts the single segment (game.js:7). */
  const Origin := Cell(10, 10)
  /** The tick interval after reset, in milliseconds (game.js:11). */
  const InitialSpeed := 150
  /** The floor of the tick interval (game.js:33). */
  const MinSpeed := 50
  /** How much one speed-up shortens the interval (game.js:33). */
  const SpeedStep := 10
  /** The interval shortens when the body length is a multiple of this (game.js:32). */
  const GrowthPeriod := 5

  datatype SnakeState = SnakeState(
    position: seq<Cell>,   // head first
    direction: Cell,       // heading used by the last move
    nextDirection: Cell,   // heading the next move will use
    grew: bool,            // the next move keeps the tail
    speed: int)            // tick interval

  /** The states the snake can be in: a non-empty body, interval within its range. */
  predicate WellFormed(s: SnakeState)
  {
    |s.position| >= 1 && MinSpeed <= s.speed <= InitialSpeed
  }

  /** The state reset establishes (game.js:6-12). */
  function Initial(): SnakeState
  {
    SnakeState([Origin], Right, Right, false, InitialSpeed)
  }

  /**
   One move (game.js:14-27): the pending heading becomes the current one, a new
   head one step along it is put in front of the body, and the last segment is
   dropped unless the growth flag was set; the flag is cleared either way.
   */
  function Advanced(s: SnakeState): (r: SnakeState)
    requires |s.position| >= 1
    ensures r.direction == s.nextDirection && r.nextDirection == s.nextDirection
    ensures |r.position| == if s.grew then |s.position| + 1 else |s.position|
    ensures r.position[0] == Add(s.position[0], s.nextDirection)
    ensures r.position[1..] == s.position[..|r.position| - 1]
    ensures !r.grew && r.speed == s.speed
  {
    var unshifted := [Add(s.position[0], s.nextDirection)] + s.position;
    var body := if s.grew then unshifted else unshifted[..|unshifted| - 1];
    s.(position := body, direction := s.nextDirection, grew := false)
  }

  /**
   grow (game.js:29-35): only sets the flag, so the extra segment appears on
   the next move; the interval is shortened, but never below MinSpeed, when the
   body length before that growth is a multiple of GrowthPeriod.
   */
  function Grown(s: SnakeState): (r: SnakeState)
    ensures r.grew
    ensures r.position == s.position && r.direction == s.direction && r.nextDirection == s.nextDirection
    ensures |s.position| % GrowthPeriod != 0 ==> r.speed == s.speed
    ensures |s.position| % GrowthPeriod == 0 ==> r.speed == Max(MinSpeed, s.speed - SpeedStep)
    ensures MinSpeed <= s.speed ==> MinSpeed <= r.speed <= s.speed
  {
    var speed := if |s.position| % GrowthPeriod == 0 then Max(MinSpeed, s.speed - SpeedStep) else s.speed;
    s.(grew := true, speed := speed)
  }

  /**
   setDirection (game.js:37-42): a request that reverses the CURRENT heading is
   ignored; any other request replaces the pending heading. The current heading
   itself is never touched here.
   */
  function WithDirection(s: SnakeState, d: Cell): (r: SnakeState)
    ensures r.position == s.position && r.direction == s.direction
    ensures r.grew == s.grew && r.speed == s.speed
    ensures d == Negate(s.direction) ==> r.nextDirection == s.nextDirection
    ensures d != Negate(s.direction) ==> r.nextDirection == d
  {
    if IsReversal(s.direction, d) then s else s.(nextDirection := d)
  }

  /**
   Several key presses between two moves, applied in order. Every press is
   tested against the same current heading, so the pending heading ends up as
   the last request that does not reverse it, or as before if every request does.
   */
  function Steered(s: SnakeState, turns: seq<Cell>): (r: SnakeState)
    ensures r.position == s.position && r.direction == s.direction
    ensures r.grew == s.grew && r.speed == s.speed
    ensures (forall i :: 0 <= i < |turns| ==> turns[i] == Negate(s.direction)) ==>
      r.nextDirection == s.nextDirection
    ensures forall i ::
      (0 <= i < |turns| && turns[i] != Negate(s.direction) &&
       forall j :: i < j < |turns| ==> turns[j] == Negate(s.direction))
      ==> r.nextDirection == turns[i]
    decreases |turns|
  {
    if turns == [] then s
    else
      var t := WithDirection(s, turns[0]);
      assert forall j :: 0 <= j < |turns[1..]| ==> turns[1..][j] == turns[j + 1];
      Steered(t, turns[1..])
  }

  /**
   The snake's part of one game tick: a move, then growth if food was eaten.
   The length changes only by the growth requested on the previous tick; the
   growth requested now is still pending.
   */
  function Step(s: SnakeState, ate: bool): (r: SnakeState)
    requires |s.position| >= 1
    ensures |r.position| == if s.grew then |s.position| + 1 else |s.position|
    ensures r.position[0] == Add(s.position[0], s.nextDirection)
    ensures r.grew == ate
  {
    var moved := Advanced(s);
    if ate then Grown(moved) else moved
  }

  /**
   checkCollision (game.js:44-56): the head is off the field, or it coincides
   with some later segment.
   */
  predicate Collides(body: seq<Cell>, width: int, height: int)
    requires |body| >= 1
  {
    !InBounds(body[0], width, height) || exists i :: 1 <= i < |body| && body[i] == body[0]
  }

  class Snake {
    var position: seq<Cell>
    var direction: Cell
    var nextDirection: Cell
    var grew: bool
    var speed: int

    /** The abstract value of this snake. */
    function State(): SnakeState
      reads this
    {
      SnakeState(position, direction, nextDirection, grew, speed)
    }

    ghost predicate Valid()
      reads this
    {
      WellFormed(State())
    }

    /** The JavaScript constructor only calls reset. */
    constructor ()
      ensures Valid() && State() == Initial()
    {
      new;
      Reset();
    }

    method Reset()
      modifies this
      ensures Valid() && State() == Initial()
    {
      position := [Origin];
      direction := Right;
      nextDirection := Right;
      grew := false;
      speed := InitialSpeed;
    }

    /** Moves one cell: unshift the new head, pop the tail unless growing. */
    method Update()
      requires Valid()
      modifies this
      ensures Valid() && State() == Advanced(old(State()))
    {
      direction := nextDirection;
      var head := position[0];
      var newHead := Cell(head.x + direction.x, head.y + direction.y);
      position := [newHead] + position;
      if !grew {
        position := position[..|position| - 1];
      }
      grew := false;
    }

    method Grow()
      requires Valid()
      modifies this
      ensures Valid() && State() == Grown(old(State()))
    {
      grew := true;
      if |position| % GrowthPeriod == 0 {
        speed := Max(MinSpeed, speed - SpeedStep);
      }
    }

    method SetDirection(d: Cell)
      requires Valid()
      modifies this
      ensures Valid() && State() == WithDirection(old(State()), d)
    {
      if direction.x + d.x == 0 && direction.y + d.y == 0 {
        return;
      }
      nextDirection := d;
    }

    /** Reads the state only; scans the body behind the head for a match. */
    method CheckCollision(width: int, height: int) returns (hit: bool)
      requires Valid()
      ensures hit <==> Collides(position, width, height)
    {
      var head := position[0];
      if head.x < 0 || head.x >= width || head.y < 0 || head.y >= height {
        return true;
      }
      var i := 1;
      while i < |position|
        invariant 1 <= i <= |position|
        invariant forall j :: 1 <= j < i ==> position[j] != head
      {
        if head.x == position[i].x && head.y == position[i].y {
          return true;
        }
        i := i + 1;
      }
      return false;
    }
  }
}
