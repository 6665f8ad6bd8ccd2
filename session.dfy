/** A play session as a sequence of discrete events: timer ticks, key presses
    and the start and restart buttons. After each event the high-score effect
    runs, as the component's effect on `score` does after every score change. */
module Session {
  import opened Geometry
  import opened Controls
  import opened Rules

  datatype Event =
    | TimerTick(rx: Sample, ry: Sample)
    | KeyDown(key: string)
    | StartClick
    | RestartClick(rx: Sample, ry: Sample)

  /** One event, without the high-score effect. */
  function Step(s: State, e: Event): State
    requires Inv(s)
  {
    match e
    case TimerTick(rx, ry) => Tick(s, rx, ry)
    case KeyDown(key) => HandleKeyPress(s, key)
    case StartClick => StartGame(s)
    case RestartClick(rx, ry) => ResetGame(s, rx, ry)
  }

  /** One event followed by the high-score effect. */
  function After(s: State, e: Event): (t: State)
    requires Inv(s)
    ensures Inv(t)
    ensures t.score == Step(s, e).score
    ensures t.highScore == if Step(s, e).score > Step(s, e).highScore then Step(s, e).score else Step(s, e).highScore
  {
    match e
    case TimerTick(rx, ry) => TickPreservesInv(s, rx, ry); HighScorePreservesInv(Step(s, e)); HighScoreEffect(Step(s, e))
    case KeyDown(key) => KeyPressEffect(s, key); HighScorePreservesInv(Step(s, e)); HighScoreEffect(Step(s, e))
    case StartClick => StartEffect(s); HighScorePreservesInv(Step(s, e)); HighScoreEffect(Step(s, e))
    case RestartClick(rx, ry) => ResetEffect(s, rx, ry); HighScorePreservesInv(Step(s, e)); HighScoreEffect(Step(s, e))
  }

  /** The state after a whole sequence of events. Every state of a session
      satisfies the invariant: the body stays on the board without repeats,
      at least two cells long, the direction is one of the four, and the
      scores are multiples of five. */
  function Run(s: State, events: seq<Event>): (t: State)
    requires Inv(s)
    ensures Inv(t)
    decreases |events|
  {
    if events == [] then s else Run(After(s, events[0]), events[1..])
  }

  /** The score after each event of the session, in order. */
  function Scores(s: State, events: seq<Event>): (scores: seq<nat>)
    requires Inv(s)
    ensures |scores| == |events|
    decreases |events|
  {
    if events == [] then [] else [After(s, events[0]).score] + Scores(After(s, events[0]), events[1..])
  }

  function MaxOf(xs: seq<nat>): nat
  {
    if xs == [] then 0 else
      var m := MaxOf(xs[1..]);
      if xs[0] > m then xs[0] else m
  }

  /** The high score at the end of a session is the larger of the high score
      it started with and every score seen during it: a running maximum. */
  lemma {:induction false} HighScoreIsRunningMax(s: State, events: seq<Event>)
    requires Inv(s) && s.highScore >= s.score
    ensures var m := MaxOf(Scores(s, events));
      Run(s, events).highScore == if m > s.highScore then m else s.highScore
    decreases |events|
  {
    if events != [] {
      var t := After(s, events[0]);
      HighScoreIsRunningMax(t, events[1..]);
      assert Scores(s, events) == [t.score] + Scores(t, events[1..]);
      assert ([t.score] + Scores(t, events[1..]))[1..] == Scores(t, events[1..]);
    }
  }

  /** Hence the high score never decreases over a session, and it never lags
      behind the score once an event has been handled. */
  lemma {:induction false} HighScoreMonotone(s: State, events: seq<Event>)
    requires Inv(s) && s.highScore >= s.score
    ensures Run(s, events).highScore >= s.highScore
    ensures Run(s, events).highScore >= Run(s, events).score
    decreases |events|
  {
    if events != [] {
      HighScoreMonotone(After(s, events[0]), events[1..]);
    }
  }

  // ----- Worked scenarios -----

  /** Travelling right from (5,5) onto food at (6,5): the body grows to
      three cells and the score becomes 5. */
  lemma GrowthScenario(rx: Sample, ry: Sample)
    ensures var s := State([Point(5, 5), Point(4, 5)], Point(1, 0), Point(6, 5), 0, 0, false, true);
      var t := Tick(s, rx, ry);
      t.snake == [Point(6, 5), Point(5, 5), Point(4, 5)] && t.score == 5 && !t.gameOver
  {
  }

  /** Travelling left from (0,0): the head would leave the board, so the game
      ends and the body stays where it was. */
  lemma WallScenario(rx: Sample, ry: Sample)
    ensures var s := State([Point(0, 0), Point(1, 0)], Point(-1, 0), Point(9, 9), 0, 0, false, true);
      var t := Tick(s, rx, ry);
      t.gameOver && t.snake == s.snake
  {
  }

  /** Two key presses between ticks reverse the snake into its own neck:
      travelling right, "ArrowUp" then "ArrowLeft" and a tick end the game. */
  lemma DoubleTurnScenario(rx: Sample, ry: Sample)
    ensures var s := State([Point(5, 5), Point(4, 5)], Point(1, 0), Point(9, 9), 0, 0, false, true);
      var t := Run(s, [KeyDown("ArrowUp"), KeyDown("ArrowLeft"), TimerTick(rx, ry)]);
      t.gameOver && t.snake == s.snake
  {
    var s := State([Point(5, 5), Point(4, 5)], Point(1, 0), Point(9, 9), 0, 0, false, true);
    var s1 := After(s, KeyDown("ArrowUp"));
    assert s1.direction == Point(0, -1);
    var s2 := After(s1, KeyDown("ArrowLeft"));
    assert s2.direction == Point(-1, 0);
    var s3 := After(s2, TimerTick(rx, ry));
    assert Occupies(s2.snake, NextHead(s2));
    assert s3.gameOver && s3.snake == s.snake;
    var evs := [KeyDown("ArrowUp"), KeyDown("ArrowLeft"), TimerTick(rx, ry)];
    assert evs[1..] == [KeyDown("ArrowLeft"), TimerTick(rx, ry)];
    assert evs[1..][1..] == [TimerTick(rx, ry)];
    assert Run(s, evs) == Run(s1, evs[1..]) == Run(s2, evs[1..][1..]) == s3;
  }
}
