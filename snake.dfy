/** The snake (src/snake.rs): a head-first body, a heading and the
    `digesting` flag that makes the next advance grow instead of shift. */
module Snakes {
  import opened Wrappers
  import opened Ints
  import opened Directions
  import opened Points

  /** The offset of the i-th segment in `Snake::new`: `delta * (i as i16)`
      computed with wrapping i16 arithmetic. */
  function ScaledDelta(delta: (i16, i16), i: nat): (r: (i16, i16))
    ensures UnitStep(delta) && i < -I16Min ==> r == (delta.0 * i, delta.1 * i)
  {
    (WrapI16(delta.0 * WrapI16(i)), WrapI16(delta.1 * WrapI16(i)))
  }

  /** Every segment `Snake::new` computes is representable (no `apply_delta`
      panics). A body laid out rightward or downward, that is heading Left or
      Up, never panics while it is at most 32768 long. */
  predicate LayoutDefined(start: Point, length: u16, heading: Direction)
    ensures (heading == Left || heading == Up) && length <= -I16Min ==> LayoutDefined(start, length, heading)
  {
    forall i: nat :: i < length ==> ApplyDelta(start, ScaledDelta(Delta(Opposite(heading)), i)).Some?
  }

  /** The body `Snake::new` lays out: `length` points behind `start`,
      against the heading. */
  function Layout(start: Point, length: u16, heading: Direction): (body: seq<Point>)
    requires LayoutDefined(start, length, heading)
    ensures |body| == length
    ensures length > 0 ==> body[0] == start
    ensures forall i :: 0 <= i < |body| && i < -I16Min ==>
              && body[i].x == WrapU16(start.x - Delta(heading).0 * i)
              && body[i].y == WrapU16(start.y - Delta(heading).1 * i)
  {
    var dd := Delta(Opposite(heading));
    var body := seq(length, (i: int) requires 0 <= i < length =>
                              ApplyDelta(start, ScaledDelta(dd, i)).value);
    forall i | 0 <= i < |body| && i < -I16Min
      ensures body[i].x == WrapU16(start.x - Delta(heading).0 * i)
      ensures body[i].y == WrapU16(start.y - Delta(heading).1 * i)
    {
      assert ScaledDelta(dd, i) == (dd.0 * i, dd.1 * i);
    }
    body
  }

  /** For bodies no longer than 32768 segments, `Snake::new` panics exactly
      when the body would reach below coordinate 0. */
  lemma {:induction false} LayoutDefinedIff(start: Point, length: u16, heading: Direction)
    requires length <= -I16Min
    ensures LayoutDefined(start, length, heading) <==>
              length == 0 ||
              ((heading == Right ==> length - 1 <= start.x) &&
               (heading == Down ==> length - 1 <= start.y))
  {
    var dd := Delta(Opposite(heading));
    if LayoutDefined(start, length, heading) && length > 0 {
      assert ApplyDelta(start, ScaledDelta(dd, length - 1)).Some?;
    }
    if length > 0 && (heading == Right ==> length - 1 <= start.x) && (heading == Down ==> length - 1 <= start.y) {
      forall i: nat | i < length
        ensures ApplyDelta(start, ScaledDelta(dd, i)).Some?
      {
      }
    }
  }

  /** Consecutive segments are one orthogonal unit step apart. */
  predicate Connected(body: seq<Point>) {
    forall i :: 0 <= i < |body| - 1 ==> Adjacent(body[i], body[i + 1])
  }

  /** A body laid out by `Snake::new` without reaching the top of the u16
      range is connected. */
  lemma LayoutIsConnected(start: Point, length: u16, heading: Direction)
    requires LayoutDefined(start, length, heading)
    requires length <= -I16Min
    requires start.x + length <= U16Limit && start.y + length <= U16Limit
    ensures Connected(Layout(start, length, heading))
  {
  }

  /** The body after one `slither`: the new head is one step along the
      heading; the old body follows it whole when digesting, and without
      its tail otherwise. */
  function Slithered(body: seq<Point>, heading: Direction, digesting: bool): (r: seq<Point>)
    requires body != [] && Step(body[0], heading).Some?
    ensures |r| == if digesting then |body| + 1 else |body|
    ensures Some(r[0]) == Step(body[0], heading)
    ensures digesting ==> r[1..] == body
    ensures !digesting ==> r[1..] == body[..|body| - 1]
    ensures forall p :: p in r ==> p == r[0] || p in body
  {
    var moved := [Step(body[0], heading).value] + body;
    if digesting then moved else moved[..|moved| - 1]
  }

  /** `slither` keeps the body connected as long as the head does not
      step past the top of the u16 range. */
  lemma SlitherKeepsConnected(body: seq<Point>, heading: Direction, digesting: bool)
    requires body != [] && Step(body[0], heading).Some?
    requires body[0].x < U16Limit - 1 && body[0].y < U16Limit - 1
    requires Connected(body)
    ensures Connected(Slithered(body, heading, digesting))
  {
  }

  /** `grow` followed by one `slither`: the body is one longer and every
      old segment, the tail included, is kept. */
  lemma GrowThenSlitherKeepsTail(body: seq<Point>, heading: Direction)
    requires body != [] && Step(body[0], heading).Some?
    ensures |Slithered(body, heading, true)| == |body| + 1
    ensures Slithered(body, heading, true)[|body|] == body[|body| - 1]
    ensures forall i :: 0 <= i < |body| ==> Slithered(body, heading, true)[i + 1] == body[i]
  {
  }

  /** The heading after `set_direction(d)`: `d`, unless `d` reverses the
      current heading, in which case the heading is kept. */
  function Turned(current: Direction, d: Direction): (r: Direction)
    ensures r == d <==> d != Opposite(current)
    ensures r != d ==> r == current
    ensures r != Opposite(current)
  {
    if d != Opposite(current) then d else current
  }

  class Snake {
    var body: seq<Point>
    var direction: Direction
    var digesting: bool

    /** `Snake::new`; the requires excludes the inputs for which it panics. */
    constructor (start: Point, length: u16, direction: Direction)
      requires LayoutDefined(start, length, direction)
      ensures body == Layout(start, length, direction)
      ensures this.direction == direction && !digesting
    {
      body := Layout(start, length, direction);
      this.direction := direction;
      digesting := false;
    }

    /** `get_head_point`; `unwrap` panics on an empty body. */
    function Head(): (p: Point)
      reads this
      requires body != []
      ensures p == body[0] && p in body
    {
      body[0]
    }

    /** `contains_point`. */
    function ContainsPoint(p: Point): (b: bool)
      reads this
      ensures b <==> exists i :: 0 <= i < |body| && body[i] == p
    {
      p in body
    }

    /** `slither`: prepend the next head, then drop the tail unless
        digesting, in which case the flag is cleared instead. */
    method Slither()
      requires body != [] && Step(body[0], direction).Some?
      modifies this`body, this`digesting
      ensures body == Slithered(old(body), direction, old(digesting))
      ensures !digesting
    {
      body := [Step(body[0], direction).value] + body;
      if !digesting {
        body := body[..|body| - 1];
      } else {
        digesting := false;
      }
    }

    /** `set_direction`: refuses an exact reversal. */
    method SetDirection(d: Direction)
      modifies this`direction
      ensures direction == Turned(old(direction), d)
    {
      if d != Opposite(direction) {
        direction := d;
      }
    }

    /** `grow`: only arms the flag; the body grows on the next `slither`. */
    method Grow()
      modifies this`digesting
      ensures digesting
    {
      digesting := true;
    }
  }
}
