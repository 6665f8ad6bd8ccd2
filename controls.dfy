/** The keyboard handler of the game: arrow keys turn the snake onto the
    perpendicular axis; everything else is ignored. */
module Controls {
  import opened Geometry

  const Up: Point := Point(0, -1)
  const Down: Point := Point(0, 1)
  const Left: Point := Point(-1, 0)
  const Right: Point := Point(1, 0)

  /** The four directions the snake can travel in (screen y grows downwards). */
  predicate IsUnit(d: Point)
  {
    d == Up || d == Down || d == Left || d == Right
  }

  function Neg(d: Point): Point
  {
    Point(-d.x, -d.y)
  }

  predicate IsArrowKey(key: string)
  {
    key == "ArrowUp" || key == "ArrowDown" || key == "ArrowLeft" || key == "ArrowRight"
  }

  predicate IsVerticalKey(key: string)
  {
    key == "ArrowUp" || key == "ArrowDown"
  }

  /** The direction an arrow key asks for. */
  function KeyVector(key: string): (v: Point)
    requires IsArrowKey(key)
    ensures IsUnit(v)
    ensures IsVerticalKey(key) <==> v.x == 0
  {
    if key == "ArrowUp" then Up
    else if key == "ArrowDown" then Down
    else if key == "ArrowLeft" then Left
    else Right
  }

  /** The component of the current direction along the axis the key asks for;
      the turn is accepted only when it is zero. */
  function AlongKeyAxis(d: Point, key: string): int
  {
    if IsVerticalKey(key) then d.y else d.x
  }

  /** `handleKeyPress`: the direction after one key event. A key other than
      the four arrows, and an arrow along the axis the snake already travels
      on, leave the direction as it is; an accepted arrow sets the direction
      to that arrow's vector. */
  function Turn(d: Point, key: string): (r: Point)
    ensures !IsArrowKey(key) ==> r == d
    ensures IsArrowKey(key) && AlongKeyAxis(d, key) != 0 ==> r == d
    ensures IsArrowKey(key) && AlongKeyAxis(d, key) == 0 ==> r == KeyVector(key)
  {
    match key
    case "ArrowUp" => if d.y == 0 then Up else d
    case "ArrowDown" => if d.y == 0 then Down else d
    case "ArrowLeft" => if d.x == 0 then Left else d
    case "ArrowRight" => if d.x == 0 then Right else d
    case _ => d
  }

  /** From any of the four directions, one key press yields one of the four
      directions, and either keeps the direction or turns it by a right angle:
      it is never the reverse of the current one. */
  lemma TurnIsRightAngleOrNone(d: Point, key: string)
    requires IsUnit(d)
    ensures IsUnit(Turn(d, key))
    ensures Turn(d, key) == d || Turn(d, key).x * d.x + Turn(d, key).y * d.y == 0
    ensures Turn(d, key) != Neg(d)
  {
    if IsArrowKey(key) && AlongKeyAxis(d, key) == 0 {
      assert Turn(d, key) == KeyVector(key);
    }
  }

  /** A turn is taken exactly when an arrow key asks for the other axis. */
  lemma TurnChangesIff(d: Point, key: string)
    requires IsUnit(d)
    ensures Turn(d, key) != d <==> IsArrowKey(key) && AlongKeyAxis(d, key) == 0
  {
    if IsArrowKey(key) && AlongKeyAxis(d, key) == 0 {
      var v := KeyVector(key);
      assert IsVerticalKey(key) ==> v.x == 0 && d.x != 0;
      assert !IsVerticalKey(key) ==> v.x != 0 && d.x == 0;
    }
  }

  /** Two accepted key presses before the snake moves can still reverse it:
      travelling right, "ArrowUp" then "ArrowLeft" points the snake left. */
  lemma TwoTurnsReverse()
    ensures Turn(Turn(Right, "ArrowUp"), "ArrowLeft") == Neg(Right)
  {
  }
}
