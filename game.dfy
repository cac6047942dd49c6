/**
 The game controller of game.js:59-252, without its drawing and DOM wiring:
 food placement, the tick, start and restart, game over, and the keydown rule.

 The controller goes through three phases: Welcome before the first start,
 Running while the timer drives the tick, and Over after a collision; only
 start leaves Welcome or Over. The timer stands for the handle kept by
 setInterval: it remembers the period it was armed with.
 */
module GameModel {
  import opened Grid
  import opened SnakeModel
  import opened SnakeProperties

  /** The food cell before the first start (game.js:71). */
  const InitialFood := Cell(15, 15)
  /** Points per food eaten (game.js:132). */
  const FoodScore := 10
  /** The key code that restarts a finished game (game.js:96). */
  const RestartCode := "Space"

  /** The repeating timer behind gameLoop: never armed, armed at a period, or cleared by game over. */
  datatype Timer = Idle | Armed(period: int) | Stopped

  datatype Phase = Welcome | Running | Over

  /**
   Every random draw lies on the field, as Math.floor(Math.random() * n)
   always lies in [0, n) (game.js:107-108).
   */
  predicate OnField(samples: seq<Cell>, width: int, height: int)
  {
    forall k :: 0 <= k < |samples| ==> InBounds(samples[k], width, height)
  }

  /** Some draw misses the body, so the rejection loop of generateFood stops. */
  predicate HasFree(samples: seq<Cell>, body: seq<Cell>)
  {
    exists k :: 0 <= k < |samples| && samples[k] !in body
  }

  /** The index of the draw generateFood keeps: the first one that misses the body. */
  function FirstFree(samples: seq<Cell>, body: seq<Cell>): (k: nat)
    requires HasFree(samples, body)
    ensures k < |samples| && samples[k] !in body
    ensures forall j :: 0 <= j < k ==> samples[j] in body
    decreases |samples|
  {
    if samples[0] !in body then 0
    else
      var k :| 0 <= k < |samples| && samples[k] !in body;
      assert samples[1..][k - 1] == samples[k];
      1 + FirstFree(samples[1..], body)
  }

  /**
   A move that does not land on the food keeps the food off the body: the new
   head is not the food and the rest of the body was already there.
   */
  lemma MoveAvoidsFood(s: SnakeState, food: Cell)
    requires |s.position| >= 1 && food !in s.position
    requires Advanced(s).position[0] != food
    ensures food !in Advanced(s).position
  {
    var r := Advanced(s);
    forall i | 1 <= i < |r.position|
      ensures r.position[i] != food
    {
      assert r.position[i] == r.position[1..][i - 1] == s.position[i - 1];
    }
  }

  class Game {
    const width: int
    const height: int
    const snake: Snake
    var food: Cell
    var score: int
    var highScore: int
    var isGameOver: bool
    var timer: Timer

    /**
     The controller's invariant: the snake's headings are sane, the food is
     never on the snake, the score is a multiple of FoodScore never above the
     high score, game over is exactly the stopped timer, and an armed timer
     runs at the initial interval.
     */
    ghost predicate Valid()
      reads this, snake
    {
      && 0 < width && 0 < height
      && snake.Valid()
      && SaneHeadings(snake.State())
      && food !in snake.position
      && 0 <= score <= highScore && score % FoodScore == 0
      && (isGameOver <==> timer == Stopped)
      && (timer.Armed? ==> timer.period == InitialSpeed)
    }

    /** The phase is read off the game-over flag and the timer handle. */
    function Phase(): (p: Phase)
      reads this
      ensures p == Over <==> isGameOver
      ensures p == Running <==> !isGameOver && timer.Armed?
      ensures p == Welcome <==> !isGameOver && !timer.Armed?
    {
      if isGameOver then Over else if timer.Armed? then Running else Welcome
    }

    /** `storedHighScore` is the persisted high score, 0 when none was stored. */
    constructor (width: int, height: int, storedHighScore: int)
      requires 0 < width && 0 < height && 0 <= storedHighScore
      ensures Valid() && fresh(snake) && Phase() == Welcome
      ensures this.width == width && this.height == height
      ensures snake.State() == Initial() && food == InitialFood
      ensures score == 0 && highScore == storedHighScore
    {
      this.width := width;
      this.height := height;
      snake := new Snake();
      InitialHasSaneHeadings();
      food := InitialFood;
      score := 0;
      highScore := storedHighScore;
      timer := Idle;
      isGameOver := false;
    }

    /** The inner scan of generateFood: does any segment sit on `c`? */
    method IsOnSnake(c: Cell) returns (onSnake: bool)
      ensures onSnake <==> c in snake.position
    {
      onSnake := false;
      for i := 0 to |snake.position|
        invariant !onSnake
        invariant forall j :: 0 <= j < i ==> snake.position[j] != c
      {
        var segment := snake.position[i];
        if segment.x == c.x && segment.y == c.y {
          onSnake := true;
          break;
        }
      }
    }

    /**
     generateFood: draw cells until one misses the snake and put the food
     there. `samples` are the successive draws of Math.random.
     */
    method GenerateFood(samples: seq<Cell>)
      requires OnField(samples, width, height) && HasFree(samples, snake.position)
      modifies this`food
      ensures food == samples[FirstFree(samples, snake.position)]
      ensures food !in snake.position && InBounds(food, width, height)
    {
      ghost var first := FirstFree(samples, snake.position);
      var i := 0;
      while true
        invariant 0 <= i <= first
        decreases first - i
      {
        var newFood := samples[i];
        var onSnake := IsOnSnake(newFood);
        if !onSnake {
          food := newFood;
          break;
        }
        i := i + 1;
      }
    }

    /** gameOver without its drawing: raise the flag and clear the timer. */
    method GameOver()
      modifies this`isGameOver, this`timer
      ensures isGameOver && timer == Stopped
    {
      isGameOver := true;
      timer := Stopped;
    }

    /**
     One tick of gameLoop (update without draw): move; if the new head is on
     the food, grow, score, place new food and raise the high score; then end
     the game on a collision. Only the armed timer calls it, so the game is
     running.
     */
    method Update(samples: seq<Cell>)
      requires Valid() && Phase() == Running
      requires OnField(samples, width, height)
      requires var moved := Advanced(snake.State());
        moved.position[0] == food ==> HasFree(samples, moved.position)
      modifies this, snake
      ensures Valid()
      ensures var moved := Advanced(old(snake.State()));
        var ate := moved.position[0] == old(food);
        && snake.State() == Step(old(snake.State()), ate)
        && (ate ==> && score == old(score) + FoodScore
                    && highScore == Max(old(highScore), score)
                    && food == samples[FirstFree(samples, moved.position)])
        && (!ate ==> score == old(score) && highScore == old(highScore) && food == old(food))
      ensures old(highScore) <= highScore
      ensures snake.direction != Negate(old(snake.direction))
      ensures isGameOver <==> Collides(snake.position, width, height)
      ensures timer == if isGameOver then Stopped else old(timer)
      ensures Phase() == if isGameOver then Over else Running
    {
      ghost var before := snake.State();
      snake.Update();
      var head := snake.position[0];
      ghost var ate := head == food;
      StepKeepsSaneHeadings(before, ate);
      if head.x == food.x && head.y == food.y {
        snake.Grow();
        score := score + FoodScore;
        GenerateFood(samples);
        if score > highScore {
          highScore := score;
        }
      } else {
        MoveAvoidsFood(before, food);
      }
      var hit := snake.CheckCollision(width, height);
      if hit {
        GameOver();
      }
    }

    /**
     start: reset the snake, zero the score, clear the game-over flag, place
     food, and arm the timer with the snake's interval, read here once.
     */
    method Start(samples: seq<Cell>)
      requires Valid()
      requires OnField(samples, width, height) && HasFree(samples, [Origin])
      modifies this, snake
      ensures Valid() && Phase() == Running
      ensures snake.State() == Initial() && score == 0 && !isGameOver
      ensures food == samples[FirstFree(samples, [Origin])]
      ensures highScore == old(highScore)
      ensures timer == Armed(InitialSpeed)
    {
      snake.Reset();
      InitialHasSaneHeadings();
      score := 0;
      isGameOver := false;
      GenerateFood(samples);
      timer := Armed(snake.speed);
    }

    /** The arrow-key half of the keydown handler: request the key's heading. */
    method PressArrow(key: string)
      requires Valid() && key in Directions
      modifies snake
      ensures Valid()
      ensures snake.State() == WithDirection(old(snake.State()), Directions[key])
    {
      var d := Directions[key];
      ArrowKeyKeepsSaneHeadings(snake.State(), key);
      snake.SetDirection(d);
      assert snake.position == old(snake.position);
    }

    /**
     The keydown handler: an arrow key requests its heading; the restart key
     starts a new game, but only once the game is over.
     */
    method KeyDown(key: string, code: string, samples: seq<Cell>)
      requires Valid()
      requires code == RestartCode && isGameOver ==>
        OnField(samples, width, height) && HasFree(samples, [Origin])
      modifies this, snake
      ensures Valid() && highScore == old(highScore)
      ensures code == RestartCode && old(isGameOver) ==>
        && snake.State() == Initial() && score == 0 && Phase() == Running
        && timer == Armed(InitialSpeed) && food == samples[FirstFree(samples, [Origin])]
      ensures !(code == RestartCode && old(isGameOver)) ==>
        && snake.State() == (if key in Directions then WithDirection(old(snake.State()), Directions[key])
                             else old(snake.State()))
        && score == old(score) && food == old(food)
        && isGameOver == old(isGameOver) && timer == old(timer)
    {
      if key in Directions {
        PressArrow(key);
      }
      if code == RestartCode && isGameOver {
        Start(samples);
      }
    }
  }
}
