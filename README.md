# Snake game: a verified model of the gameplay state machine

This project models the game logic of a browser Snake game, the `SnakeGame`
component in `src/components/Box.jsx`. Underneath the React component the
game is a small state record and a few transitions:

- the state: the snake's body (head first), a direction vector, the food cell,
  the score and high score, and the `gameOver` and `started` flags;
- the tick of the game loop: move the head one cell, end the game on a wall or
  self collision and leave the body as it was, otherwise prepend the head, then
  either eat (score +5, new food) or drop the tail;
- the key handler, which accepts a turn only onto the perpendicular axis;
- the high-score effect, `resetGame` and `startGame`.

Modules:

- `Geometry` (geometry.dfy): cells, the wall test, and `generateFood`.
  The wall test compares a coordinate with `350 / 15`, about 23.33. For an
  integer coordinate this is written exactly as `15 * x >= 350`, so the board
  has the coordinates 0 .. 23. `Math.random()` is a parameter: a fraction
  `num / den` with `num < den`, so `Math.floor(r * 350 / 15)` is the integer
  quotient `(350 * num) / (15 * den)`. This quotient is proved to lie in
  0 .. 23, and every value in 0 .. 23 is proved reachable.
- `Controls` (controls.dfy): `handleKeyPress` as a function of the current
  direction and the key string.
- `Rules` (rules.dfy): the state as a value, each transition as a function,
  and the lemmas about them: the collision outcomes, translation and growth,
  and preservation of the invariant `Inv`. `Inv` says the body has at least two
  cells, all on the board and pairwise distinct. It also says the direction is
  one of the four unit vectors, the food is on the board, and the scores are
  multiples of 5.
- `Session` (session.dfy): a session is a sequence of events (timer ticks, key
  presses, start and restart clicks), each followed by the high-score effect.
  The invariant holds throughout. The final high score is the running maximum
  of the scores seen.
- `Box` (box.dfy): the component as a class whose fields are the state
  variables. Its methods overwrite those fields as the handlers do. Each method
  is proved to produce exactly the state that the matching `Rules` function
  gives, and to keep `Inv`.

Two facts of the code shape the model:

- 350 / 15 is about 23.33, and the wall test `x >= 350 / 15` admits x = 23,
  so each axis has 24 coordinates (0 .. 23); `generateFood` also yields
  0 .. 23 (Box.jsx:25-26, 104-106).
- `startGame` clears `gameOver` unconditionally (Box.jsx:156), and
  `StartGame` models that; only the markup at Box.jsx:171 hides its button
  outside the idle state.

## Model

| member | source | states |
|---|---|---|
| `Geometry.HitsWall` | src/components/Box.jsx:101-107 | the wall test (x < 0, x >= 350/15, y < 0 or y >= 350/15) holds exactly for cells outside 0..23 x 0..23 |
| `Geometry.FoodCoord` | src/components/Box.jsx:25-26 | `floor(random * 350/15)` lies in 0..23 for every random value in [0, 1) |
| `Geometry.FoodCoordBound` | src/components/Box.jsx:25-26 | the quotient `(350*num) / (15*den)` with `num < den` is in 0..23 |
| `Geometry.FoodCoordCoversGrid` | src/components/Box.jsx:25-26 | every coordinate 0..23 is produced by some random value |
| `Geometry.GenerateFood` | src/components/Box.jsx:23-28 | the new food cell is always on the board (it may lie on the snake) |
| `Geometry.GenerateFoodCoversGrid` | src/components/Box.jsx:23-28 | every cell of the board can be drawn as food |
| `Controls.KeyVector` | src/components/Box.jsx:66-77 | each arrow key asks for a unit vector; the vertical keys ask for one with x = 0 |
| `Controls.Turn` | src/components/Box.jsx:64-81 | non-arrow keys and arrows along the current axis leave the direction unchanged; an arrow onto the perpendicular axis sets that arrow's vector |
| `Controls.TurnIsRightAngleOrNone` | src/components/Box.jsx:64-80 | from a unit direction one key press gives a unit direction that is the same or perpendicular, never the reverse |
| `Controls.TurnChangesIff` | src/components/Box.jsx:64-80 | the direction changes if and only if an arrow key asks for the other axis |
| `Controls.TwoTurnsReverse` | src/components/Box.jsx:64-80 | two accepted presses (Up, then Left) turn a right-moving direction into its reverse |
| `Rules.Initial` | src/components/Box.jsx:6-21 | the state at mount (snake [(5,5),(4,5)], direction (1,0), scores 0, both flags false, the given food); no contract of its own, its properties are stated by `Rules.InitialInv` |
| `Rules.Tick` | src/components/Box.jsx:94-133 | the tick; no contract of its own, its behaviour is stated by `Rules.TickIdle`, `Rules.TickWallCollision`, `Rules.TickSelfCollision`, `Rules.TickTranslate`, `Rules.TickGrow`, `Rules.TickOutcomes` and `Rules.TickPreservesInv` |
| `Rules.HandleKeyPress` | src/components/Box.jsx:61-81 | the guarded key handler; no contract of its own, its behaviour is stated by `Rules.KeyPressEffect` and, through `Controls.Turn`, by `Controls.TurnIsRightAngleOrNone` and `Controls.TurnChangesIff` |
| `Rules.HighScoreEffect` | src/components/Box.jsx:139-143 | the high-score effect; no contract of its own, its behaviour is stated by `Rules.HighScoreIsMax` and `Rules.HighScorePreservesInv` |
| `Rules.ResetGame` | src/components/Box.jsx:145-152 | `resetGame`; no contract of its own, its behaviour is stated by `Rules.ResetEffect` |
| `Rules.StartGame` | src/components/Box.jsx:154-157 | `startGame`; no contract of its own, its behaviour is stated by `Rules.StartEffect` |
| `Session.Step` | src/components/Box.jsx:61-157 | dispatches one event to the matching transition; no contract of its own, `Session.After` and `Session.Run` state what a step preserves |
| `Rules.Occupies` | src/components/Box.jsx:113-117 | the `some` test holds exactly when the head's cell is a segment of the body |
| `Rules.TickIdle` | src/components/Box.jsx:90-91 | a tick outside the running state (not started, or game over) changes nothing |
| `Rules.TickWallCollision` | src/components/Box.jsx:96-110 | a head with x < 0, 15x >= 350, y < 0 or 15y >= 350 sets `gameOver` and leaves every other field, the body included, unchanged |
| `Rules.TickSelfCollision` | src/components/Box.jsx:112-120 | a head on any segment, the tail included, sets `gameOver` and leaves everything else unchanged |
| `Rules.TickTranslate` | src/components/Box.jsx:94-133 | a free move off the food gives `[head] + body[..n-1]` with head = old head + direction; length, score, food and flags unchanged |
| `Rules.TickGrow` | src/components/Box.jsx:122-127 | a move onto the food gives `[head] + body`: length +1, score +5, new food on the board |
| `Rules.TickOutcomes` | src/components/Box.jsx:94-133 | each tick does exactly one of four mutually exclusive things: nothing (not running); game over with everything else unchanged; the move `[head] + body[..n-1]` with score and food unchanged; or growth to `[head] + body` with score +5. Length grows by one exactly when the score grows by five |
| `Rules.PrependKeepsShape` | src/components/Box.jsx:122 | prepending an on-board cell that is not in the body keeps the body on the board and free of repeats |
| `Rules.DropTailKeepsShape` | src/components/Box.jsx:129 | dropping the tail keeps the body on the board and free of repeats |
| `Rules.TickPreservesInv` | src/components/Box.jsx:102-130 | every tick keeps the body on the board, pairwise distinct and at least two long, and keeps the score a multiple of 5 |
| `Rules.KeyPressEffect` | src/components/Box.jsx:61-81 | a key press changes only the direction, never reverses it, keeps the invariant, and is a no-op unless running |
| `Rules.HighScoreIsMax` | src/components/Box.jsx:139-143 | after the effect the high score is max(old high score, score); nothing else changes |
| `Rules.HighScorePreservesInv` | src/components/Box.jsx:139-143 | the high-score effect keeps the invariant |
| `Rules.ResetEffect` | src/components/Box.jsx:145-152 | restart gives snake [(5,5),(4,5)], direction (1,0), score 0, both flags false and food on the board, and keeps the high score |
| `Rules.StartEffect` | src/components/Box.jsx:154-157 | start enters the running state and changes no field other than `started` and `gameOver` |
| `Rules.InitialInv` | src/components/Box.jsx:6-21 | the state at mount is idle and satisfies the invariant |
| `Session.After` | src/components/Box.jsx:61-157 | one event followed by the high-score effect keeps the invariant |
| `Session.Run` | src/components/Box.jsx:61-157 | every state reached by any sequence of events satisfies the invariant |
| `Session.HighScoreIsRunningMax` | src/components/Box.jsx:139-143 | at the end of a session the high score is the maximum of the initial high score and every score seen |
| `Session.HighScoreMonotone` | src/components/Box.jsx:139-143 | over a session the high score never decreases and is at least the current score |
| `Session.GrowthScenario` | src/components/Box.jsx:122-127 | from [(5,5),(4,5)] moving right onto food at (6,5), one tick gives [(6,5),(5,5),(4,5)] and score 5 |
| `Session.WallScenario` | src/components/Box.jsx:101-110 | from [(0,0),(1,0)] moving left, the tick ends the game with the body unchanged |
| `Session.DoubleTurnScenario` | src/components/Box.jsx:64-120 | Up then Left between ticks, while moving right, runs the head into the neck and ends the game |
| `Box.SnakeGame.constructor` | src/components/Box.jsx:6-21 | the fields start at the initial state, with the first food drawn |
| `Box.SnakeGame.Tick` | src/components/Box.jsx:93-133 | the in-place tick produces exactly `Rules.Tick` of the old state and keeps the invariant |
| `Box.SnakeGame.HandleKeyPress` | src/components/Box.jsx:61-81 | the listener produces exactly `Rules.HandleKeyPress` of the old state and keeps the invariant |
| `Box.SnakeGame.UpdateHighScore` | src/components/Box.jsx:139-143 | the effect sets the high score to max(old high score, score) and changes nothing else |
| `Box.SnakeGame.ResetGame` | src/components/Box.jsx:145-152 | `resetGame` produces exactly `Rules.ResetGame` of the old state and keeps the invariant |
| `Box.SnakeGame.StartGame` | src/components/Box.jsx:154-157 | `startGame` produces exactly `Rules.StartGame` of the old state and keeps the invariant |

## Left out

- Canvas drawing (`clearRect`, `fillRect`, `fillText`) and the JSX markup, buttons and overlays: output with no game logic.
- React hook plumbing: dependency lists, attaching and detaching the `keydown` listener, `setInterval`/`clearInterval` and the 100 ms period, state batching and stale closures. Each tick, key press and click is one atomic transition on the current state. The high-score effect runs after every event; when the score has not changed, the effect would change nothing anyway.
- `Math.random` is a parameter. It is a fraction in [0, 1), so floating-point rounding in `Math.random() * (350 / 15)` is not modelled.
- JavaScript numbers are doubles; coordinates and scores are unbounded integers here, so precision loss beyond 2^53 is not modelled.
- Keeping food off the snake: the code does not do it, and neither does the model.
- src/app/page.js only mounts the component; it is not part of this model.
