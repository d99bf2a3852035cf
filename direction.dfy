/** The four headings of the snake (src/direction.rs). The y axis grows
    downward, as in screen coordinates. */
module Directions {
  import opened Ints

  datatype Direction = Up | Right | Down | Left

  /** A unit orthogonal step: exactly one component is non-zero and it is 1 or -1. */
  predicate UnitStep(delta: (i16, i16)) {
    && -1 <= delta.0 <= 1
    && -1 <= delta.1 <= 1
    && (delta.0 == 0) != (delta.1 == 0)
  }

  /** The heading that reverses `d`. */
  function Opposite(d: Direction): (r: Direction)
    ensures r != d
    ensures Delta(r).0 == -Delta(d).0 && Delta(r).1 == -Delta(d).1
  {
    match d
    case Up => Down
    case Right => Left
    case Down => Up
    case Left => Right
  }

  /** One step along `d` as (dx, dy). */
  function Delta(d: Direction): (r: (i16, i16))
    ensures UnitStep(r)
    ensures r.1 < 0 <==> d == Up
    ensures r.1 > 0 <==> d == Down
    ensures r.0 > 0 <==> d == Right
    ensures r.0 < 0 <==> d == Left
  {
    match d
    case Up => (0, -1)
    case Right => (1, 0)
    case Down => (0, 1)
    case Left => (-1, 0)
  }

  /** Neither the same heading nor its reversal: a quarter turn. */
  predicate Perpendicular(a: Direction, b: Direction) {
    a != b && a != Opposite(b)
  }

  lemma OppositeIsInvolution(d: Direction)
    ensures Opposite(Opposite(d)) == d
  {
  }

  /** Two headings with the same step are the same heading. */
  lemma DeltaIsInjective(a: Direction, b: Direction)
    requires Delta(a) == Delta(b)
    ensures a == b
  {
  }

  lemma PerpendicularIsSymmetric(a: Direction, b: Direction)
    ensures Perpendicular(a, b) <==> Perpendicular(b, a)
  {
  }
}
