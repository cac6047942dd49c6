/**
 Properties of the snake over many ticks: how the interval follows the number
 of meals, how deferred growth shows in the length, and how the heading checks
 of setDirection interact with the deferred heading of update.
 */
module SnakeProperties {
  import opened Grid
  import opened SnakeModel

  /** What happens to the snake in one tick: key presses, then a move, then growth if it ate. */
  datatype Tick = Tick(turns: seq<Cell>, ate: bool)

  /** The snake after a run of ticks; its body never gets shorter. */
  function Play(s: SnakeState, ticks: seq<Tick>): (r: SnakeState)
    requires |s.position| >= 1
    ensures |r.position| >= |s.position|
    decreases |ticks|
  {
    if ticks == [] then s else Play(Ticked(s, ticks[0]), ticks[1..])
  }

  /** One tick: the key presses, then the move and the growth. */
  function Ticked(s: SnakeState, tick: Tick): (r: SnakeState)
    requires |s.position| >= 1
    ensures |r.position| >= |s.position|
  {
    Step(Steered(s, tick.turns), tick.ate)
  }

  /** The number of ticks of a run in which food was eaten. */
  function Meals(ticks: seq<Tick>): nat
  {
    if ticks == [] then 0 else (if ticks[0].ate then 1 else 0) + Meals(ticks[1..])
  }

  /** The interval after `m` meals since reset: one step down at every fifth meal, floored. */
  function SpeedAfterMeals(m: nat): int
  {
    Max(MinSpeed, InitialSpeed - SpeedStep * (m / GrowthPeriod))
  }

  /**
   After `k` meals since reset, the body has 1 + k segments once the pending
   growth (if any) has been applied, and the interval is SpeedAfterMeals(k).
   */
  predicate FedState(s: SnakeState, k: nat)
  {
    |s.position| + (if s.grew then 1 else 0) == 1 + k && s.speed == SpeedAfterMeals(k)
  }

  /**
   One tick keeps FedState. The length grow tests is that of the body after
   the move, which already holds the growth of the previous meal, so the test
   fires exactly at meals 5, 10, 15 and so on.
   */
  lemma StepKeepsFedState(s: SnakeState, k: nat, ate: bool)
    requires |s.position| >= 1 && FedState(s, k)
    ensures FedState(Step(s, ate), if ate then k + 1 else k)
  {
    if ate {
      var moved := Advanced(s);
      assert |moved.position| == k + 1;
      if (k + 1) % GrowthPeriod == 0 {
        assert (k + 1) / GrowthPeriod == k / GrowthPeriod + 1;
      } else {
        assert (k + 1) / GrowthPeriod == k / GrowthPeriod;
      }
    }
  }

  /** `k` plus the meals of a run, counted tick by tick as the run goes. */
  function MealsAfter(k: nat, ticks: seq<Tick>): (m: nat)
    ensures m == k + Meals(ticks)
    decreases |ticks|
  {
    if ticks == [] then k else MealsAfter(if ticks[0].ate then k + 1 else k, ticks[1..])
  }

  /** Every tick of a run keeps FedState, counting the meals as they are eaten. */
  lemma {:induction false} PlayKeepsFedState(s: SnakeState, k: nat, ticks: seq<Tick>)
    requires |s.position| >= 1 && FedState(s, k)
    ensures FedState(Play(s, ticks), MealsAfter(k, ticks))
    decreases |ticks|
  {
    if ticks != [] {
      var next := Ticked(s, ticks[0]);
      TickKeepsFedState(s, k, ticks[0]);
      PlayKeepsFedState(next, if ticks[0].ate then k + 1 else k, ticks[1..]);
    }
  }

  /** Key presses do not touch the body, the flag or the interval, so a whole tick keeps FedState. */
  lemma TickKeepsFedState(s: SnakeState, k: nat, tick: Tick)
    requires |s.position| >= 1 && FedState(s, k)
    ensures FedState(Ticked(s, tick), if tick.ate then k + 1 else k)
  {
    var t := Steered(s, tick.turns);
    assert FedState(t, k);
    StepKeepsFedState(t, k, tick.ate);
  }

  /**
   From reset, the interval depends only on the number of meals, stays within
   [MinSpeed, InitialSpeed], and the body length is one plus the meals whose
   growth has already taken effect.
   */
  lemma SpeedFollowsMeals(ticks: seq<Tick>)
    ensures var r := Play(Initial(), ticks);
      && r.speed == SpeedAfterMeals(Meals(ticks))
      && MinSpeed <= r.speed <= InitialSpeed
      && |r.position| == 1 + Meals(ticks) - (if r.grew then 1 else 0)
  {
    assert FedState(Initial(), 0);
    PlayKeepsFedState(Initial(), 0, ticks);
    SpeedAfterMealsInRange(Meals(ticks));
  }

  lemma SpeedAfterMealsInRange(m: nat)
    ensures MinSpeed <= SpeedAfterMeals(m) <= InitialSpeed
  {
    assert m / GrowthPeriod >= 0;
  }

  /** From any well-formed state, the interval never rises and never leaves its range. */
  lemma {:induction false} SpeedNeverRises(s: SnakeState, ticks: seq<Tick>)
    requires WellFormed(s)
    ensures WellFormed(Play(s, ticks)) && Play(s, ticks).speed <= s.speed
    decreases |ticks|
  {
    if ticks != [] {
      var next := Ticked(s, ticks[0]);
      SpeedNeverRises(next, ticks[1..]);
    }
  }

  /** Growth is deferred: grow leaves the length alone, the next move adds one segment. */
  lemma GrowthIsDeferred(s: SnakeState)
    requires |s.position| >= 1
    ensures |Grown(s).position| == |s.position|
    ensures |Advanced(Grown(s)).position| == |s.position| + 1
    ensures Advanced(Grown(s)).position[1..] == s.position
  {
  }

  /**
   A body of three moving right eats the food one cell ahead: after that tick
   the body still has three segments, and the fourth appears on the next move.
   */
  lemma EatingScenario()
    ensures var s := SnakeState([Cell(5, 5), Cell(4, 5), Cell(3, 5)], Right, Right, false, InitialSpeed);
      && Step(s, true).position == [Cell(6, 5), Cell(5, 5), Cell(4, 5)]
      && Step(Step(s, true), false).position == [Cell(7, 5), Cell(6, 5), Cell(5, 5), Cell(4, 5)]
  {
    var s := SnakeState([Cell(5, 5), Cell(4, 5), Cell(3, 5)], Right, Right, false, InitialSpeed);
    assert ([Cell(6, 5)] + s.position)[..3] == [Cell(6, 5), Cell(5, 5), Cell(4, 5)];
  }

  /** A heading request that is not a reversal of the current heading is the next move's heading. */
  lemma HeadingTakesEffect(s: SnakeState, d: Cell)
    requires |s.position| >= 1 && d != Negate(s.direction)
    ensures Advanced(WithDirection(s, d)).direction == d
  {
  }

  /** A reversal request is ignored: the next move keeps the pending heading. */
  lemma ReversalIgnored(s: SnakeState, d: Cell)
    requires |s.position| >= 1 && d == Negate(s.direction)
    ensures Advanced(WithDirection(s, d)).direction == s.nextDirection
  {
  }

  /**
   Because setDirection compares with the current heading and not the pending
   one, a second key press within a tick may reverse the pending heading.
   */
  lemma PendingReversalQueued(s: SnakeState)
    requires s.direction == Right
    ensures WithDirection(WithDirection(s, Up), Down).nextDirection == Down
    ensures WithDirection(WithDirection(WithDirection(s, Up), Down), Left).nextDirection == Down
  {
  }

  /**
   The pending heading moves the snake and does not reverse the current one.
   Arrow keys keep this; reset establishes it.
   */
  predicate SaneHeadings(s: SnakeState)
  {
    s.nextDirection != Cell(0, 0) && s.nextDirection != Negate(s.direction)
  }

  lemma {:induction false} SteeredKeepsSaneHeadings(s: SnakeState, turns: seq<Cell>)
    requires SaneHeadings(s)
    requires forall i :: 0 <= i < |turns| ==> IsUnit(turns[i])
    ensures SaneHeadings(Steered(s, turns))
    decreases |turns|
  {
    if turns != [] {
      var t := WithDirection(s, turns[0]);
      WithDirectionKeepsSaneHeadings(s, turns[0]);
      assert forall i :: 0 <= i < |turns[1..]| ==> IsUnit(turns[1..][i]) by {
        forall i | 0 <= i < |turns[1..]| ensures IsUnit(turns[1..][i]) {
          assert turns[1..][i] == turns[i + 1];
        }
      }
      SteeredKeepsSaneHeadings(t, turns[1..]);
      assert Steered(s, turns) == Steered(t, turns[1..]);
    }
  }

  /** One accepted or refused unit request keeps the headings sane. */
  lemma WithDirectionKeepsSaneHeadings(s: SnakeState, d: Cell)
    requires SaneHeadings(s) && IsUnit(d)
    ensures SaneHeadings(WithDirection(s, d))
  {
    if d != Negate(s.direction) {
      assert WithDirection(s, d) == s.(nextDirection := d);
    }
  }

  /**
   Whatever unit headings are requested within a tick, the move never goes
   straight back along the previous move's heading, and the headings stay sane.
   */
  lemma MoveNeverReverses(s: SnakeState, turns: seq<Cell>)
    requires |s.position| >= 1 && SaneHeadings(s)
    requires forall i :: 0 <= i < |turns| ==> IsUnit(turns[i])
    ensures Advanced(Steered(s, turns)).direction != Negate(s.direction)
    ensures SaneHeadings(Advanced(Steered(s, turns)))
  {
    var t := Steered(s, turns);
    SteeredKeepsSaneHeadings(s, turns);
    var r := Advanced(t);
    assert r.direction == t.nextDirection && r.nextDirection == t.nextDirection;
    MovingIsNotOwnReversal(t.nextDirection);
  }

  /** A heading that moves is not its own reversal. */
  lemma MovingIsNotOwnReversal(d: Cell)
    requires d != Cell(0, 0)
    ensures d != Negate(d)
  {
    assert d.x != -d.x || d.y != -d.y;
  }

  /** Reset leaves sane headings: both headings are (1,0). */
  lemma InitialHasSaneHeadings()
    ensures SaneHeadings(Initial())
  {
    MovingIsNotOwnReversal(Right);
  }

  /** Pressing an arrow key, accepted or refused, keeps sane headings. */
  lemma ArrowKeyKeepsSaneHeadings(s: SnakeState, key: string)
    requires key in Directions && SaneHeadings(s)
    ensures SaneHeadings(WithDirection(s, Directions[key]))
  {
    DirectionsAreUnitAndClosed();
    WithDirectionKeepsSaneHeadings(s, Directions[key]);
  }

  /** A move, with or without growth, keeps sane headings and never reverses the previous move. */
  lemma StepKeepsSaneHeadings(s: SnakeState, ate: bool)
    requires |s.position| >= 1 && SaneHeadings(s)
    ensures SaneHeadings(Step(s, ate))
    ensures Step(s, ate).direction != Negate(s.direction)
  {
    MovingIsNotOwnReversal(s.nextDirection);
  }

  /** One tick of a game keeps sane headings when every key pressed is an arrow key. */
  lemma TickKeepsSaneHeadings(s: SnakeState, turns: seq<Cell>, ate: bool)
    requires |s.position| >= 1 && SaneHeadings(s)
    requires forall i :: 0 <= i < |turns| ==> turns[i] in Directions.Values
    ensures SaneHeadings(Step(Steered(s, turns), ate))
    ensures Step(Steered(s, turns), ate).direction != Negate(s.direction)
  {
    DirectionsAreUnitAndClosed();
    assert forall i :: 0 <= i < |turns| ==> IsUnit(turns[i]);
    MoveNeverReverses(s, turns);
  }

  /**
   From reset, over any run of ticks in which only arrow keys are pressed, the
   headings stay sane, so no move ever goes straight back along the previous one.
   */
  lemma {:induction false} PlayKeepsSaneHeadings(s: SnakeState, ticks: seq<Tick>)
    requires |s.position| >= 1 && SaneHeadings(s)
    requires forall k, i :: 0 <= k < |ticks| && 0 <= i < |ticks[k].turns| ==>
      ticks[k].turns[i] in Directions.Values
    ensures SaneHeadings(Play(s, ticks))
    decreases |ticks|
  {
    if ticks != [] {
      var next := Ticked(s, ticks[0]);
      TickKeepsSaneHeadings(s, ticks[0].turns, ticks[0].ate);
      assert forall k :: 0 <= k < |ticks[1..]| ==> ticks[1..][k] == ticks[k + 1];
      PlayKeepsSaneHeadings(next, ticks[1..]);
    }
  }

  /**
   Any run from reset in which only arrow keys are pressed ends with sane
   headings, so its next move cannot reverse the last one either.
   */
  lemma SaneHeadingsFromReset(ticks: seq<Tick>)
    requires forall k, i :: 0 <= k < |ticks| && 0 <= i < |ticks[k].turns| ==>
      ticks[k].turns[i] in Directions.Values
    ensures SaneHeadings(Play(Initial(), ticks))
  {
    InitialHasSaneHeadings();
    PlayKeepsSaneHeadings(Initial(), ticks);
  }
}
