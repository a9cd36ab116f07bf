/** The four compass directions of `Direction.java`, with unit deltas. */
module Directions {
  import opened Tiles

  datatype Direction = UP | DOWN | LEFT | RIGHT
  {
    function Dx(): int
    {
      match this
      case UP => 0
      case DOWN => 0
      case LEFT => -1
      case RIGHT => 1
    }

    function Dy(): int
    {
      match this
      case UP => 1
      case DOWN => -1
      case LEFT => 0
      case RIGHT => 0
    }

    /** `opoosite()` in the source, called as `opposite()` by its callers. */
    function Opposite(): (r: Direction)
      ensures r.Dx() == -Dx() && r.Dy() == -Dy()
      ensures r != this
    {
      match this
      case UP => DOWN
      case DOWN => UP
      case LEFT => RIGHT
      case RIGHT => LEFT
    }

    predicate IsVertical()
    {
      this == UP || this == DOWN
    }

    predicate IsHorizontal()
    {
      this == LEFT || this == RIGHT
    }
  }

  /** The neighbour of `p` one step in direction `d` (`step(p, dir)` and the inline moves). */
  function Step(p: Point, d: Direction): (q: Point)
    ensures Adjacent(q.x, q.y, p.x, p.y)
  {
    Point(p.x + d.Dx(), p.y + d.Dy())
  }

  /** Stepping back the opposite way returns to the start. */
  lemma StepBack(p: Point, d: Direction)
    ensures Step(Step(p, d), d.Opposite()) == p
  {
  }

  /** The neighbours of a cell are exactly its four steps. */
  lemma AdjacentIsStep(p: Point, q: Point)
    ensures Adjacent(q.x, q.y, p.x, p.y) <==> exists d :: q == Step(p, d)
  {
    if Adjacent(q.x, q.y, p.x, p.y) {
      if q.x == p.x + 1 { assert q == Step(p, RIGHT); }
      else if q.x == p.x - 1 { assert q == Step(p, LEFT); }
      else if q.y == p.y + 1 { assert q == Step(p, UP); }
      else { assert q == Step(p, DOWN); }
    }
  }

  /** `Direction.values()`, in declaration order. */
  const Values: seq<Direction> := [UP, DOWN, LEFT, RIGHT]

  function Abs(n: int): nat
  {
    if n < 0 then -n else n
  }

  /** Every direction is a unit step along one axis. */
  lemma UnitStep(d: Direction)
    ensures Abs(d.Dx()) + Abs(d.Dy()) == 1
  {
  }

  /** `opposite` is an involution. */
  lemma OppositeInvolution(d: Direction)
    ensures d.Opposite().Opposite() == d
  {
  }

  /** Exactly one classification holds, and vertical means no horizontal motion. */
  lemma Classification(d: Direction)
    ensures d.IsVertical() != d.IsHorizontal()
    ensures d.IsVertical() <==> d.Dx() == 0
    ensures d.IsHorizontal() <==> d.Dy() == 0
  {
  }

  /** `opposite` keeps the axis. */
  lemma OppositeKeepsAxis(d: Direction)
    ensures d.Opposite().IsVertical() == d.IsVertical()
    ensures d.Opposite().IsHorizontal() == d.IsHorizontal()
  {
  }

  /** A direction is determined by its deltas. */
  lemma DeltasDetermine(d: Direction, e: Direction)
    requires d.Dx() == e.Dx() && d.Dy() == e.Dy()
    ensures d == e
  {
  }

  /** `Values` lists every direction once. */
  lemma ValuesComplete(d: Direction)
    ensures d in Values
  {
  }
}
