/** The game component: its state fields and the handlers that overwrite
    them. Each handler performs one transition of module Rules in place. */
module Box {
  import opened Geometry
  import opened Controls
  import Rules

  class SnakeGame {
    var snake: seq<Point>
    var direction: Point
    var food: Point
    var score: nat
    var highScore: nat
    var gameOver: bool
    var started: bool

    /** The component's state as a value. */
    function Snapshot(): Rules.State
      reads this
    {
      Rules.State(snake, direction, food, score, highScore, gameOver, started)
    }

    ghost predicate Valid()
      reads this
    {
      Rules.Inv(Snapshot())
    }

    /** Mounting: the initial state with the first food drawn. */
    constructor (rx: Sample, ry: Sample)
      ensures Valid()
      ensures Snapshot() == Rules.Initial(GenerateFood(rx, ry))
    {
      snake := Rules.InitialSnake;
      direction := Rules.InitialDirection;
      food := GenerateFood(rx, ry);
      score := 0;
      highScore := 0;
      gameOver := false;
      started := false;
      Rules.InitialInv(GenerateFood(rx, ry));
    }

    /** One firing of the interval: copy the body, compute the head, test the
        walls and the body, then prepend the head and either eat or drop the tail. */
    method Tick(rx: Sample, ry: Sample)
      requires Valid()
      modifies this
      ensures Valid()
      ensures Snapshot() == Rules.Tick(old(Snapshot()), rx, ry)
    {
      Rules.TickPreservesInv(Snapshot(), rx, ry);
      if !started || gameOver {
        return;
      }
      var newSnake := snake;
      var head := Point(newSnake[0].x + direction.x, newSnake[0].y + direction.y);
      if head.x < 0 || CellSize * head.x >= BoxSize || head.y < 0 || CellSize * head.y >= BoxSize {
        gameOver := true;
        return;
      }
      if Rules.Occupies(newSnake, head) {
        gameOver := true;
        return;
      }
      newSnake := [head] + newSnake;
      if head.x == food.x && head.y == food.y {
        score := score + Rules.Reward;
        food := GenerateFood(rx, ry);
      } else {
        newSnake := newSnake[..|newSnake| - 1];
      }
      snake := newSnake;
    }

    /** The keydown listener, attached only while the game runs. */
    method HandleKeyPress(key: string)
      requires Valid()
      modifies this
      ensures Valid()
      ensures Snapshot() == Rules.HandleKeyPress(old(Snapshot()), key)
    {
      Rules.KeyPressEffect(Snapshot(), key);
      if !started || gameOver {
        return;
      }
      direction := Turn(direction, key);
    }

    /** The effect that runs when the score changes. */
    method UpdateHighScore()
      requires Valid()
      modifies this
      ensures Valid()
      ensures Snapshot() == Rules.HighScoreEffect(old(Snapshot()))
      ensures highScore == if old(score) > old(highScore) then old(score) else old(highScore)
    {
      if score > highScore {
        highScore := score;
      }
    }

    method ResetGame(rx: Sample, ry: Sample)
      requires Valid()
      modifies this
      ensures Valid()
      ensures Snapshot() == Rules.ResetGame(old(Snapshot()), rx, ry)
    {
      Rules.ResetEffect(Snapshot(), rx, ry);
      snake := Rules.InitialSnake;
      direction := Rules.InitialDirection;
      food := GenerateFood(rx, ry);
      score := 0;
      gameOver := false;
      started := false;
    }

    method StartGame()
      requires Valid()
      modifies this
      ensures Valid()
      ensures Snapshot() == Rules.StartGame(old(Snapshot()))
    {
      started := true;
      gameOver := false;
    }
  }
}
