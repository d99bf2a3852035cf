/** Grid coordinates (src/point.rs). `Point::new(x, y)` is the datatype
    constructor `Point(x, y)`; a panic on underflow is the `None` result. */
module Points {
  import opened Wrappers
  import opened Ints
  import opened Directions

  datatype Point = Point(x: u16, y: u16)

  /** One coordinate moved by `delta`: `None` exactly where the source
      panics (the result would be negative); otherwise the sum, reduced
      modulo 2^16 as the casts of a release build do. */
  function ApplyDeltaToValue(value: u16, delta: i16): (r: Option<u16>)
    ensures r.None? <==> delta < 0 && -(delta as int) > value
    ensures r.Some? && value + delta < U16Limit ==> r.value == value + delta
    ensures r.Some? && value + delta >= U16Limit ==> r.value == value + delta - U16Limit
  {
    if delta < 0 && -(delta as int) > value then None else Some(WrapU16(value + delta))
  }

  /** Both coordinates moved, each independently; the point is undefined
      when either coordinate is. */
  function ApplyDelta(p: Point, delta: (i16, i16)): (r: Option<Point>)
    ensures r.Some? <==> ApplyDeltaToValue(p.x, delta.0).Some? && ApplyDeltaToValue(p.y, delta.1).Some?
    ensures r.Some? ==> Some(r.value.x) == ApplyDeltaToValue(p.x, delta.0)
    ensures r.Some? ==> Some(r.value.y) == ApplyDeltaToValue(p.y, delta.1)
  {
    var x := ApplyDeltaToValue(p.x, delta.0);
    var y := ApplyDeltaToValue(p.y, delta.1);
    if x.None? || y.None? then None else Some(Point(x.value, y.value))
  }

  /** One step from `p` along `d`. */
  function Step(p: Point, d: Direction): Option<Point> {
    ApplyDelta(p, Delta(d))
  }

  function Abs(n: int): nat {
    if n < 0 then -n else n
  }

  /** Points one orthogonal unit step apart. */
  predicate Adjacent(p: Point, q: Point) {
    Abs(p.x - q.x) + Abs(p.y - q.y) == 1
  }

  lemma ApplyZeroIsIdentity(p: Point)
    ensures ApplyDelta(p, (0, 0)) == Some(p)
  {
  }

  /** Applying a delta and then its negation returns to the start whenever
      both applications are defined. */
  lemma ApplyDeltaRoundTrip(p: Point, delta: (i16, i16))
    requires delta.0 > I16Min && delta.1 > I16Min
    requires ApplyDelta(p, delta).Some?
    requires ApplyDelta(ApplyDelta(p, delta).value, (-delta.0, -delta.1)).Some?
    ensures ApplyDelta(ApplyDelta(p, delta).value, (-delta.0, -delta.1)) == Some(p)
  {
  }

  /** A move that wraps past the top of the u16 range cannot be undone:
      the reverse move would go below 0. */
  lemma WrapNeverRoundTrips(value: u16, delta: i16)
    requires value + delta >= U16Limit
    ensures ApplyDeltaToValue(value, delta).Some?
    ensures ApplyDeltaToValue(ApplyDeltaToValue(value, delta).value, -delta).None?
  {
  }

  /** A step that does not pass the top of the u16 range lands on an
      adjacent point, offset by exactly the heading's delta. */
  lemma StepIsAdjacent(p: Point, d: Direction)
    requires Step(p, d).Some?
    requires p.x < U16Limit - 1 && p.y < U16Limit - 1
    ensures Step(p, d).value.x == p.x + Delta(d).0
    ensures Step(p, d).value.y == p.y + Delta(d).1
    ensures Adjacent(p, Step(p, d).value)
  {
  }

  /** A step fails exactly at the low edge it heads toward. */
  lemma StepFailsOnlyAtLowEdge(p: Point, d: Direction)
    ensures Step(p, d).None? <==> (d == Up && p.y == 0) || (d == Left && p.x == 0)
  {
  }
}
