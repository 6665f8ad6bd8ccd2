/** The game's state record and its transitions as functions of the state:
    the tick of the game loop, a key press, the high-score effect, restart and
    start. The class in module Box performs the same transitions in place. */
module Rules {
  import opened Geometry
  import opened Controls

  const Reward: nat := 5
  const InitialSnake: seq<Point> := [Point(5, 5), Point(4, 5)]
  const InitialDirection: Point := Point(1, 0)

  /** All state the game keeps: the body (head first), the direction, the food
      cell, the two scores and the two lifecycle flags. */
  datatype State = State(
    snake: seq<Point>,
    direction: Point,
    food: Point,
    score: nat,
    highScore: nat,
    gameOver: bool,
    started: bool)

  /** The state at mount; `food` is the first `generateFood()`. */
  function Initial(food: Point): State
  {
    State(InitialSnake, InitialDirection, food, 0, 0, false, false)
  }

  /** The loop and the keyboard listener act only in this lifecycle state. */
  predicate Running(s: State)
  {
    s.started && !s.gameOver
  }

  predicate Distinct(body: seq<Point>)
  {
    forall i, j :: 0 <= i < j < |body| ==> body[i] != body[j]
  }

  predicate AllInGrid(body: seq<Point>)
  {
    forall i :: 0 <= i < |body| ==> InGrid(body[i])
  }

  /** What every reachable state satisfies: a body of at least two cells, all
      on the board and pairwise distinct; one of the four directions; food on
      the board; scores that are multiples of the reward. */
  predicate Inv(s: State)
  {
    && |s.snake| >= 2
    && AllInGrid(s.snake)
    && Distinct(s.snake)
    && IsUnit(s.direction)
    && InGrid(s.food)
    && s.score % Reward == 0
    && s.highScore % Reward == 0
  }

  /** `newSnake.some(segment => segment.x === head.x && segment.y === head.y)`. */
  function Occupies(body: seq<Point>, p: Point): (hit: bool)
    ensures hit <==> p in body
  {
    if body == [] then false
    else body[0] == p || Occupies(body[1..], p)
  }

  /** The cell the head moves into on the next tick. */
  function NextHead(s: State): Point
    requires s.snake != []
  {
    Add(s.snake[0], s.direction)
  }

  /** One firing of the game loop, the updater passed to `setSnake` together
      with the score and food updates it triggers. `rx` and `ry` are the
      random samples `generateFood` would draw. */
  function Tick(s: State, rx: Sample, ry: Sample): State
    requires Running(s) ==> s.snake != []
  {
    if !Running(s) then s
    else
      var head := NextHead(s);
      if HitsWall(head) then s.(gameOver := true)
      else if Occupies(s.snake, head) then s.(gameOver := true)
      else if head == s.food then
        s.(snake := [head] + s.snake, score := s.score + Reward, food := GenerateFood(rx, ry))
      else
        s.(snake := [head] + s.snake[..|s.snake| - 1])
  }

  /** A key event: the listener is attached only while the game runs. */
  function HandleKeyPress(s: State, key: string): State
  {
    if !Running(s) then s else s.(direction := Turn(s.direction, key))
  }

  /** The effect on `score`: raise the high score when the score exceeds it. */
  function HighScoreEffect(s: State): State
  {
    if s.score > s.highScore then s.(highScore := s.score) else s
  }

  /** `resetGame`: everything but the high score back to the initial values,
      with fresh food. */
  function ResetGame(s: State, rx: Sample, ry: Sample): State
  {
    Initial(GenerateFood(rx, ry)).(highScore := s.highScore)
  }

  /** `startGame`. */
  function StartGame(s: State): State
  {
    s.(started := true, gameOver := false)
  }

  // ----- The tick -----

  /** A tick outside the running state changes nothing. */
  lemma TickIdle(s: State, rx: Sample, ry: Sample)
    requires !Running(s)
    ensures Tick(s, rx, ry) == s
  {
  }

  /** Wall collision: a head outside 0 .. 23 on either axis ends the game and
      discards the move. */
  lemma TickWallCollision(s: State, rx: Sample, ry: Sample)
    requires Running(s) && s.snake != []
    requires var h := NextHead(s); h.x < 0 || CellSize * h.x >= BoxSize || h.y < 0 || CellSize * h.y >= BoxSize
    ensures Tick(s, rx, ry) == s.(gameOver := true)
  {
  }

  /** Self collision: a head landing on any current segment, the tail that is
      about to move away included, ends the game and discards the move. */
  lemma TickSelfCollision(s: State, rx: Sample, ry: Sample, i: int)
    requires Running(s) && 0 <= i < |s.snake|
    requires NextHead(s) == s.snake[i]
    ensures Tick(s, rx, ry) == s.(gameOver := true)
  {
  }

  /** A move onto a free cell that is not the food: the body moves one cell,
      its length, the score and the food stay as they were. */
  lemma TickTranslate(s: State, rx: Sample, ry: Sample)
    requires Running(s) && s.snake != []
    requires InGrid(NextHead(s)) && NextHead(s) !in s.snake && NextHead(s) != s.food
    ensures var t := Tick(s, rx, ry);
      && t.snake == [NextHead(s)] + s.snake[..|s.snake| - 1]
      && |t.snake| == |s.snake|
      && t.score == s.score && t.food == s.food
      && t.direction == s.direction && t.highScore == s.highScore
      && t.gameOver == s.gameOver && t.started == s.started
  {
  }

  /** A move onto the food: the body grows by the new head, the score rises by
      exactly five and the new food is drawn on the board. */
  lemma TickGrow(s: State, rx: Sample, ry: Sample)
    requires Running(s) && s.snake != []
    requires InGrid(NextHead(s)) && NextHead(s) !in s.snake && NextHead(s) == s.food
    ensures var t := Tick(s, rx, ry);
      && t.snake == [NextHead(s)] + s.snake
      && |t.snake| == |s.snake| + 1
      && t.score == s.score + Reward
      && t.food == GenerateFood(rx, ry) && InGrid(t.food)
      && t.direction == s.direction && t.highScore == s.highScore
      && !t.gameOver && t.started
  {
  }

  /** Exactly one of four things happens on a tick: nothing (not running),
      game over with the body untouched, a one-cell move, or growth by one
      together with five points. The four cases exclude each other: the first
      alone is not running, the second alone ends the game, and the last two
      differ in the score. The body never shrinks. */
  lemma TickOutcomes(s: State, rx: Sample, ry: Sample)
    requires Running(s) ==> s.snake != []
    ensures var t := Tick(s, rx, ry);
      || (!Running(s) && t == s)
      || (Running(s) && t == s.(gameOver := true))
      || (Running(s) && t.snake == [NextHead(s)] + s.snake[..|s.snake| - 1]
          && t.score == s.score && t.food == s.food && !t.gameOver)
      || (Running(s) && t.snake == [NextHead(s)] + s.snake
          && t.score == s.score + Reward && !t.gameOver)
    ensures var t := Tick(s, rx, ry);
      |s.snake| <= |t.snake| <= |s.snake| + 1
      && (|t.snake| == |s.snake| + 1 <==> t.score == s.score + Reward)
      && (|t.snake| == |s.snake| <==> t.score == s.score)
  {
  }

  /** Prepending a cell that is on the board and not in the body keeps the
      body on the board and free of repeats. */
  lemma {:induction false} PrependKeepsShape(head: Point, body: seq<Point>)
    requires AllInGrid(body) && Distinct(body)
    requires InGrid(head) && head !in body
    ensures AllInGrid([head] + body) && Distinct([head] + body)
  {
    var b := [head] + body;
    forall i, j | 0 <= i < j < |b| ensures b[i] != b[j] {
      if i == 0 {
        assert b[j] == body[j - 1];
        assert body[j - 1] in body;
      } else {
        assert b[i] == body[i - 1] && b[j] == body[j - 1];
      }
    }
    forall i | 0 <= i < |b| ensures InGrid(b[i]) {
      if i > 0 {
        assert b[i] == body[i - 1];
      }
    }
  }

  /** Dropping the tail keeps the body on the board and free of repeats. */
  lemma {:induction false} DropTailKeepsShape(body: seq<Point>)
    requires body != [] && AllInGrid(body) && Distinct(body)
    ensures AllInGrid(body[..|body| - 1]) && Distinct(body[..|body| - 1])
  {
    var b := body[..|body| - 1];
    forall i | 0 <= i < |b| ensures b[i] == body[i] {
    }
  }

  /** Every tick keeps the invariant: both collision tests come before the
      head is added, so the new head is on the board and not yet in the body. */
  lemma TickPreservesInv(s: State, rx: Sample, ry: Sample)
    requires Inv(s)
    ensures Inv(Tick(s, rx, ry))
  {
    if Running(s) {
      var h := NextHead(s);
      if !HitsWall(h) && !Occupies(s.snake, h) {
        if h == s.food {
          PrependKeepsShape(h, s.snake);
        } else {
          var rest := s.snake[..|s.snake| - 1];
          DropTailKeepsShape(s.snake);
          assert h !in rest;
          PrependKeepsShape(h, rest);
        }
      }
    }
  }

  // ----- Keys, high score, restart, start -----

  /** A key press changes the direction and nothing else, keeps it one of the
      four directions, never reverses it, and does nothing unless the game runs. */
  lemma KeyPressEffect(s: State, key: string)
    requires Inv(s)
    ensures var t := HandleKeyPress(s, key);
      && Inv(t)
      && t.(direction := s.direction) == s
      && t.direction != Neg(s.direction)
      && (!Running(s) ==> t == s)
  {
    if Running(s) {
      var d := Turn(s.direction, key);
      TurnIsRightAngleOrNone(s.direction, key);
      assert HandleKeyPress(s, key) == s.(direction := d);
    }
  }

  /** The high score becomes the larger of the high score and the score; it
      never decreases and nothing else changes. */
  lemma HighScoreIsMax(s: State)
    ensures var t := HighScoreEffect(s);
      && t.highScore >= s.highScore && t.highScore >= s.score
      && (t.highScore == s.highScore || t.highScore == s.score)
      && t.(highScore := s.highScore) == s
  {
  }

  /** The high-score effect keeps the invariant. */
  lemma HighScorePreservesInv(s: State)
    requires Inv(s)
    ensures Inv(HighScoreEffect(s))
  {
  }

  /** Restart: the initial body, direction and flags, a zero score, food on
      the board and the high score kept; the result satisfies the invariant. */
  lemma ResetEffect(s: State, rx: Sample, ry: Sample)
    ensures var t := ResetGame(s, rx, ry);
      && t.snake == [Point(5, 5), Point(4, 5)]
      && t.direction == Point(1, 0)
      && t.score == 0 && !t.gameOver && !t.started
      && InGrid(t.food)
      && t.highScore == s.highScore
    ensures s.highScore % Reward == 0 ==> Inv(ResetGame(s, rx, ry))
  {
  }

  /** Start enters the running state and changes nothing else. */
  lemma StartEffect(s: State)
    requires Inv(s)
    ensures var t := StartGame(s);
      && Running(t) && Inv(t)
      && t.(started := s.started, gameOver := s.gameOver) == s
  {
  }

  /** The state at mount satisfies the invariant and is idle. */
  lemma InitialInv(food: Point)
    requires InGrid(food)
    ensures Inv(Initial(food)) && !Running(Initial(food))
  {
  }
}
