# Snake game core in Dafny

A model of the browser Snake game in `game.js`. It covers the `Snake` class and
the state-changing part of the `Game` controller: food placement, the tick,
start and restart, game over, and the keydown rule.

- `grid.dfy` (module `Grid`) holds the cells, the heading vectors, the field
  bounds, the reversal test and the arrow-key table.
- `snake.dfy` (module `SnakeModel`) specifies each snake operation as a function
  on the value `SnakeState`. The class `Snake` has the JavaScript fields:
  `position`, a head-first `seq<Cell>`, plus `direction`, `nextDirection`,
  `grew` and `speed`. Each of its methods is proved to leave exactly the state
  that the matching function gives.
- `snake_properties.dfy` (module `SnakeProperties`) proves properties of runs of
  many ticks:
  - the tick interval depends only on the number of meals since reset;
  - the interval never rises and stays within [50, 150];
  - growth is deferred to the next move;
  - a rejected reversal leaves the heading alone;
  - a second key press within one tick can reverse the pending heading, but a
    move never goes straight back along the previous move's heading.
- `game.dfy` (module `GameModel`) holds the class `Game`. Its invariant says:
  - the pending heading moves the snake and does not reverse the current heading;
  - the food is never on the snake;
  - the score is a multiple of 10 and never above the high score;
  - the game is over exactly when the timer is stopped;
  - an armed timer always runs at the initial interval of 150.

  The last point holds because `start` reads `snake.speed` only right after
  `reset`, so the speed-ups that `grow` makes never reach the timer.

The phases are `Welcome`, `Running` and `Over`:
- `Start` moves any phase to `Running`.
- `Update` keeps `Running`, or moves it to `Over` exactly on a collision.
- `KeyDown` leaves the phase alone, except that the Space key in `Over` restarts
  the game.

Three behaviours of the code are easy to misread; the model follows the code:
- `grow` tests the body length before the new segment exists. The segment
  appears on the next move. After eating, the body therefore keeps its length
  for that tick (`EatingScenario`). The length test still fires exactly at every
  fifth meal (`SpeedFollowsMeals`).
- The timer is armed once per start at the interval read then. It is never
  re-armed when the snake speeds up.
- `setDirection` compares a request with the heading of the last move, not with
  the pending heading. Two presses within one tick can reverse the pending
  heading (`PendingReversalQueued`). The move itself still never reverses the
  previous move (`MoveNeverReverses`).

## Model

| member | source | states |
|---|---|---|
| `Grid.IsReversal` | game.js:38 | the component-sum test holds exactly when the request is the negation of the current heading |
| `Grid.DirectionsAreUnitAndClosed` | game.js:83-88 | every arrow key maps to a unit heading, and the opposite of each is also mapped |
| `SnakeModel.Advanced` | game.js:14-27 | a move takes the pending heading as current; the new head is the old head plus it; the old body follows in order; the last segment is dropped unless growing; the flag is cleared |
| `SnakeModel.Grown` | game.js:29-35 | grow sets the flag and keeps the body; the interval changes only when the length is a multiple of 5, then to max(50, speed - 10); it never rises and never drops below 50 |
| `SnakeModel.WithDirection` | game.js:37-42 | a reversal of the current heading changes nothing; any other request becomes the pending heading; the current heading is untouched |
| `SnakeModel.Steered` | game.js:90-93 | several key presses leave body, current heading, flag and interval alone; if every request reverses the current heading the pending heading is kept; otherwise the last request that does not reverse it is pending |
| `SnakeModel.Step` | game.js:127-131 | in a tick the length grows by one exactly when growth was pending; the new flag records whether food was eaten now |
| `SnakeModel.Snake.constructor` | game.js:2-4 | a new snake is in the reset state |
| `SnakeModel.Snake.Reset` | game.js:6-12 | body [(10,10)], both headings (1,0), no pending growth, interval 150 |
| `SnakeModel.Snake.Update` | game.js:14-27 | the in-place unshift and conditional pop leave exactly the state `Advanced` gives |
| `SnakeModel.Snake.Grow` | game.js:29-35 | the new state is exactly the one `Grown` gives |
| `SnakeModel.Snake.SetDirection` | game.js:37-42 | the new state is exactly the one `WithDirection` gives |
| `SnakeModel.Snake.CheckCollision` | game.js:44-56 | true exactly when the head is off [0,width)x[0,height) or equals some later segment; changes nothing |
| `SnakeProperties.Ticked` | game.js:126-131 | one tick (key presses, a move, growth if food was eaten) never shortens the body |
| `SnakeProperties.Play` | game.js:209-212 | a run of ticks, one `gameLoop` call each, never shortens the body |
| `SnakeProperties.StepKeepsFedState` | game.js:29-35 | one tick keeps "1 + k segments counting pending growth, interval fixed by k meals"; the length test fires on meals 5, 10, 15, ... |
| `SnakeProperties.TickKeepsFedState` | game.js:126-131 | key presses do not disturb this, so a whole tick keeps it with one more meal exactly when food was eaten |
| `SnakeProperties.PlayKeepsFedState` | game.js:126-132 | the same over any run of ticks, with key presses, counting the meals of the run |
| `SnakeProperties.SpeedFollowsMeals` | game.js:29-35 | from reset, the interval is max(50, 150 - 10 * (meals / 5)), stays in [50,150], and the length is one plus the meals already applied |
| `SnakeProperties.SpeedNeverRises` | game.js:32-34 | over any run from a well-formed state the interval never rises and stays in range |
| `SnakeProperties.GrowthIsDeferred` | game.js:22-30 | grow keeps the length; the next move adds exactly one segment and keeps the whole old body |
| `SnakeProperties.EatingScenario` | game.js:127-131 | eating with body [(5,5),(4,5),(3,5)] gives [(6,5),(5,5),(4,5)]; the next move gives four segments |
| `SnakeProperties.HeadingTakesEffect` | game.js:15 | a request that does not reverse the current heading is the heading of the next move |
| `SnakeProperties.ReversalIgnored` | game.js:38-40 | a reversal request leaves the next move's heading as it was pending |
| `SnakeProperties.PendingReversalQueued` | game.js:38-41 | moving right, Up then Down leaves Down pending; a later Left is still refused |
| `SnakeProperties.WithDirectionKeepsSaneHeadings` | game.js:37-42 | one unit request, accepted or refused, keeps a pending heading that moves the snake and does not reverse the current one |
| `SnakeProperties.SteeredKeepsSaneHeadings` | game.js:37-42 | any number of unit requests keep a pending heading that moves the snake and does not reverse the current one |
| `SnakeProperties.MoveNeverReverses` | game.js:14-15 | whatever unit keys are pressed within a tick, the move never reverses the previous move, and the headings stay sane |
| `SnakeProperties.InitialHasSaneHeadings` | game.js:6-12 | reset leaves sane headings: both are (1,0) |
| `SnakeProperties.ArrowKeyKeepsSaneHeadings` | game.js:83-92 | pressing any of the four arrow keys, accepted or refused, keeps sane headings |
| `SnakeProperties.StepKeepsSaneHeadings` | game.js:14-15 | a move, with or without growth, keeps sane headings and never reverses the previous move |
| `SnakeProperties.TickKeepsSaneHeadings` | game.js:14-15 | arrow-key presses followed by a move keep sane headings, and the move never reverses the previous one |
| `SnakeProperties.PlayKeepsSaneHeadings` | game.js:209-212 | over any run of ticks in which only arrow keys are pressed, sane headings are kept |
| `SnakeProperties.SaneHeadingsFromReset` | game.js:214-215 | any such run from reset ends with sane headings, so its next move cannot reverse the last one |
| `GameModel.FirstFree` | game.js:105-123 | the draw generateFood keeps misses the body, and every earlier draw hits it |
| `GameModel.MoveAvoidsFood` | game.js:126-130 | a move whose head misses the food keeps the food off the body |
| `GameModel.Game.Phase` | game.js:74-75 | Over exactly when the game-over flag is set; Running exactly when not over and the timer is armed; Welcome exactly when neither |
| `GameModel.Game.constructor` | game.js:60-79 | a new game is in Welcome with a reset snake, food at (15,15), score 0 and the stored high score |
| `GameModel.Game.IsOnSnake` | game.js:111-117 | true exactly when the cell is a segment of the snake; changes nothing |
| `GameModel.Game.GenerateFood` | game.js:104-124 | the food becomes the first draw off the snake; it is on the field and on no segment |
| `GameModel.Game.GameOver` | game.js:229-231 | the game-over flag is set and the timer stopped |
| `GameModel.Game.Update` | game.js:126-146 | move; on food, grow, add exactly 10, place new food and set the high score to max(high, score); otherwise score, high score and food unchanged; the move never reverses the previous move; over exactly on a collision; the invariant is kept |
| `GameModel.Game.Start` | game.js:214-227 | snake reset, score 0, not over, food placed off the snake, high score unchanged, timer armed at 150, phase Running |
| `GameModel.Game.PressArrow` | game.js:90-93 | an arrow key leaves exactly the state setDirection gives for its heading, and the invariant is kept |
| `GameModel.Game.KeyDown` | game.js:82-99 | an arrow key acts as setDirection; Space restarts only a finished game; otherwise the game state is unchanged; the high score never changes |

## Left out

- Drawing: `draw`, `drawWelcomeScreen` and the overlay and text of `gameOver`. These are canvas output only.
- DOM wiring: element lookups, event registration, `preventDefault` and the score label. A key event becomes the `key` and `code` arguments of `KeyDown`. A click on the start button is a call to `Start`.
- `localStorage`: the stored high score is the constructor argument `storedHighScore`, taken to be a non-negative integer. Writing it back is not modelled. The coercion between the stored string and a number is not modelled.
- `Math.random`: its successive draws are the `samples` argument of `GenerateFood`, `Update`, `Start` and `KeyDown`. Each draw is required to lie on the field and some draw to miss the snake. The source's loop ends exactly when such a draw comes up; when the grid is full it never ends, and that case is not modelled.
- `setInterval` and `clearInterval`: they are reduced to the `Timer` value, which records the armed period. Each firing of `gameLoop` is one call to `Update`, so `Update` requires the `Running` phase.
- The grid size derived from the canvas size: `width` and `height` are positive integers given to the constructor.
