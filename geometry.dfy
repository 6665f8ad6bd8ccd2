/** Cells of the playing field, the wall test and the placement of food.

    The board is a 350 x 350 canvas cut into 15-unit cells. The wall test of the
    game compares a cell coordinate with 350 / 15 (about 23.33); for an integer
    coordinate that is the same as comparing 15 * x with 350, so the legal
    coordinates are 0 .. 23 and the grid has 24 cells per side. */
module Geometry {

  /** A cell of the board, or a direction vector: the `{ x, y }` records of the game. */
  datatype Point = Point(x: int, y: int)

  const BoxSize: int := 350
  const CellSize: int := 15
  /** Number of legal coordinates per axis: 0 .. GridCells - 1. */
  const GridCells: int := 24

  /** The cell one step from p in direction d. */
  function Add(p: Point, d: Point): Point
  {
    Point(p.x + d.x, p.y + d.y)
  }

  /** A cell is on the board when both coordinates lie in 0 .. GridCells - 1. */
  predicate InGrid(p: Point)
  {
    0 <= p.x < GridCells && 0 <= p.y < GridCells
  }

  /** One coordinate against the wall, as the game tests it:
      `c < 0 || c >= boxSize / cellSize`, with the division cleared. */
  predicate OutsideAxis(c: int)
  {
    c < 0 || CellSize * c >= BoxSize
  }

  /** The game's wall test on a prospective head. It fails exactly on the
      cells of the 24 x 24 grid. */
  predicate HitsWall(p: Point): (hit: bool)
    ensures hit <==> !InGrid(p)
  {
    OutsideAxis(p.x) || OutsideAxis(p.y)
  }

  /** A value of the random number generator, 0 <= num / den < 1, held as a
      fraction so that no floating point is involved. */
  datatype Fraction = Fraction(num: nat, den: nat)
  type Sample = f: Fraction | f.num < f.den witness Fraction(0, 1)

  /** `Math.floor(r * (boxSize / cellSize))` for r = num / den: the floor of the
      non-negative rational (350 * num) / (15 * den). Whatever the sample, the
      coordinate is on the board. */
  function FoodCoord(r: Sample): (k: int)
    ensures 0 <= k < GridCells
  {
    var q := (BoxSize * r.num) / (CellSize * r.den);
    FoodCoordBound(r.num, r.den, q);
    q
  }

  /** A fresh food cell from two random samples; it always lies on the board.
      Nothing keeps it off the snake. */
  function GenerateFood(rx: Sample, ry: Sample): (food: Point)
    ensures InGrid(food)
  {
    Point(FoodCoord(rx), FoodCoord(ry))
  }

  /** The division bound behind FoodCoord: with num < den, the quotient of
      350 * num by 15 * den is below 24. */
  lemma FoodCoordBound(num: nat, den: nat, q: int)
    requires num < den
    requires q == (BoxSize * num) / (CellSize * den)
    ensures 0 <= q < GridCells
  {
    var m := CellSize * den;
    assert 0 <= q;
    assert q * m <= BoxSize * num;
    assert BoxSize * num < GridCells * m;
    ProductBelow(q, GridCells, m);
  }

  /** Cancelling a positive factor: q * m < b * m gives q < b. */
  lemma ProductBelow(q: int, b: int, m: int)
    requires m > 0 && q * m < b * m
    ensures q < b
  {
  }

  /** Every coordinate of the board can be drawn: the sample 15k / 350 gives k. */
  lemma FoodCoordCoversGrid(k: int)
    requires 0 <= k < GridCells
    ensures exists r: Sample :: FoodCoord(r) == k
  {
    var r: Sample := Fraction(CellSize * k, BoxSize);
    assert BoxSize * r.num == (CellSize * r.den) * k;
    assert FoodCoord(r) == k;
  }

  /** Hence every board cell, and only board cells, can become food. */
  lemma GenerateFoodCoversGrid(p: Point)
    requires InGrid(p)
    ensures exists rx: Sample, ry: Sample :: GenerateFood(rx, ry) == p
  {
    FoodCoordCoversGrid(p.x);
    FoodCoordCoversGrid(p.y);
    var rx: Sample :| FoodCoord(rx) == p.x;
    var ry: Sample :| FoodCoord(ry) == p.y;
    assert GenerateFood(rx, ry) == p;
  }
}
