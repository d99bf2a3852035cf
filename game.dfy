/** One game session (src/game.rs) without terminal drawing, real time or
    randomness: a tick is driven by the commands that arrived during it, and
    the random food cell comes from a draw oracle. */
module Games {
  import opened Wrappers
  import opened Ints
  import opened Directions
  import opened Points
  import opened Snakes

  const BaseIntervalMs: nat := 1000
  const MaxSpeed: nat := 20
  /** The speed `Game::new` starts with; nothing in the game changes it. */
  const InitialSpeed: u8 := 10
  /** The body length `Game::new` gives the snake. */
  const StartLength: u16 := 3

  /** What the input source yields: the two variants of the `command` module. */
  datatype Command = Quit | Turn(towards: Direction)

  /** The keys `get_command` tells apart; every other key is `OtherKey`. */
  datatype Key = Char(c: char) | Esc | ArrowUp | ArrowRight | ArrowDown | ArrowLeft | OtherKey

  /** `get_command`'s key table. */
  function CommandOf(key: Key): (r: Option<Command>)
    ensures r == Some(Quit) <==> key == Char('q') || key == Char('Q') || key == Esc
    ensures r == Some(Turn(Up)) <==> key == ArrowUp
    ensures r == Some(Turn(Right)) <==> key == ArrowRight
    ensures r == Some(Turn(Down)) <==> key == ArrowDown
    ensures r == Some(Turn(Left)) <==> key == ArrowLeft
  {
    match key
    case Char(c) => if c == 'Q' || c == 'q' then Some(Quit) else None
    case Esc => Some(Quit)
    case ArrowUp => Some(Turn(Up))
    case ArrowRight => Some(Turn(Right))
    case ArrowDown => Some(Turn(Down))
    case ArrowLeft => Some(Turn(Left))
    case OtherKey => None
  }

  /** `calculate_interval` in milliseconds; above `MaxSpeed` the u64
      subtraction would underflow. */
  function CalculateInterval(speed: u8): (ms: nat)
    requires speed <= MaxSpeed
    ensures ms <= BaseIntervalMs
    ensures ms == 0 <==> speed == MaxSpeed
    ensures speed == InitialSpeed ==> ms == 500
  {
    (BaseIntervalMs / MaxSpeed) * (MaxSpeed - speed)
  }

  /** A faster speed never gives a longer tick. */
  lemma IntervalShrinksWithSpeed(slow: u8, fast: u8)
    requires slow <= fast <= MaxSpeed
    ensures CalculateInterval(fast) <= CalculateInterval(slow)
  {
  }

  predicate InGrid(p: Point, width: u16, height: u16) {
    p.x < width && p.y < height
  }

  /** The step from `p` along `d` is defined and stays on the grid. */
  predicate StepStaysInGrid(p: Point, d: Direction, width: u16, height: u16) {
    Step(p, d).Some? && InGrid(Step(p, d).value, width, height)
  }

  /** `has_collided_with_wall`: the head is on the edge it is heading
      toward. For a head on the grid this is exactly the case in which the
      next step would panic or leave the grid, so a false result makes the
      `apply_delta` calls of the tick safe. `width - 1` and `height - 1`
      underflow on an empty grid. */
  function HasCollidedWithWall(width: u16, height: u16, head: Point, heading: Direction): (r: bool)
    requires 1 <= width && 1 <= height
    ensures InGrid(head, width, height) ==> (r <==> !StepStaysInGrid(head, heading, width, height))
  {
    match heading
    case Up => head.y == 0
    case Right => head.x == width - 1
    case Down => head.y == height - 1
    case Left => head.x == 0
  }

  /** The next head lands on a body cell other than the head and the tail
      (the check that `has_bitten_itself` makes). */
  ghost predicate BitesItself(body: seq<Point>, heading: Direction)
    requires |body| >= 2 && Step(body[0], heading).Some?
    ensures BitesItself(body, heading) ==> |body| >= 3
  {
    exists i :: 1 <= i < |body| - 1 && body[i] == Step(body[0], heading).value
  }

  /** The collision test of a tick, with the short-circuit of the source:
      the self-bite test is only made when no wall is ahead. */
  ghost predicate Collides(width: u16, height: u16, body: seq<Point>, heading: Direction)
    requires 1 <= width && 1 <= height && |body| >= 2 && InGrid(body[0], width, height)
    ensures !Collides(width, height, body, heading) ==> StepStaysInGrid(body[0], heading, width, height)
  {
    HasCollidedWithWall(width, height, body[0], heading) || BitesItself(body, heading)
  }

  /** What the turn filter of one tick leaves: the heading, and whether a
      Quit arrived. */
  datatype Turns = Turns(heading: Direction, quit: bool)

  /** One turn of the input loop: it must be a quarter turn from the
      heading `start` that the tick began with, and then pass
      `set_direction`'s guard against the current heading. */
  function FilterTurn(start: Direction, current: Direction, towards: Direction): (r: Direction)
    ensures r == current || (r == towards && Perpendicular(towards, start))
    ensures r != Opposite(current)
    ensures Perpendicular(towards, start) && towards != Opposite(current) ==> r == towards
  {
    if Perpendicular(towards, start) then Turned(current, towards) else current
  }

  /** The input loop of `run`, over the commands that arrive in one tick.
      Each turn is compared with the heading `start` captured at the start
      of the tick and must then pass `set_direction`'s own guard against
      the current heading; a Quit ends the loop. */
  function FilterTurns(start: Direction, current: Direction, commands: seq<Command>): (r: Turns)
    decreases |commands|
    ensures r.heading == current || Turn(r.heading) in commands
  {
    if commands == [] then Turns(current, false)
    else match commands[0]
      case Quit => Turns(current, true)
      case Turn(towards) =>
        var next := FilterTurn(start, current, towards);
        FilterTurns(start, next, commands[1..])
  }

  /** Whatever turns arrive, the heading at the end of the tick is the
      heading at its start or a quarter turn from it, never its reversal. */
  lemma {:induction false} FilterTurnsNeverReverses(start: Direction, current: Direction, commands: seq<Command>)
    requires current == start || Perpendicular(start, current)
    decreases |commands|
    ensures var h := FilterTurns(start, current, commands).heading;
            h == start || Perpendicular(start, h)
    ensures FilterTurns(start, current, commands).heading != Opposite(start)
  {
    if commands != [] && commands[0].Turn? {
      var towards := commands[0].towards;
      var next := FilterTurn(start, current, towards);
      FilterTurnsNeverReverses(start, next, commands[1..]);
    }
  }

  /** The heading is overwritten, not queued: a turn that passes both
      guards at the end of a tick's input decides the heading, whatever
      turns came before it. */
  lemma {:induction false} FilterTurnsLastTurnWins(start: Direction, current: Direction, commands: seq<Command>, t: Direction)
    requires Quit !in commands
    requires Perpendicular(t, start)
    requires t != Opposite(FilterTurns(start, current, commands).heading)
    decreases |commands|
    ensures FilterTurns(start, current, commands + [Turn(t)]) == Turns(t, false)
  {
    if commands == [] {
      assert [Turn(t)][1..] == [];
    } else {
      assert commands[0] in commands;
      assert (commands + [Turn(t)])[1..] == commands[1..] + [Turn(t)];
      assert Quit !in commands[1..] by {
        forall j | 0 <= j < |commands[1..]| ensures commands[1..][j] != Quit {
          assert commands[1..][j] == commands[j + 1];
        }
      }
      var next := FilterTurn(start, current, commands[0].towards);
      FilterTurnsLastTurnWins(start, next, commands[1..], t);
    }
  }

  /** The tick sees a Quit exactly when one arrived. */
  lemma {:induction false} FilterTurnsQuitsOnQuit(start: Direction, current: Direction, commands: seq<Command>)
    ensures FilterTurns(start, current, commands).quit <==> Quit in commands
    decreases |commands|
  {
    if commands != [] && commands[0].Turn? {
      var towards := commands[0].towards;
      var next := FilterTurn(start, current, towards);
      FilterTurnsQuitsOnQuit(start, next, commands[1..]);
      assert commands == [commands[0]] + commands[1..];
    }
  }

  /** Commands behind the first Quit of a tick are never read. */
  lemma {:induction false} FilterTurnsStopsAtQuit(start: Direction, current: Direction, before: seq<Command>, after: seq<Command>)
    ensures FilterTurns(start, current, before + [Quit] + after) == FilterTurns(start, current, before + [Quit])
    decreases |before|
  {
    if before == [] {
      assert (before + [Quit] + after)[0] == Quit;
      assert (before + [Quit])[0] == Quit;
    } else {
      assert (before + [Quit] + after)[1..] == before[1..] + [Quit] + after;
      assert (before + [Quit])[1..] == before[1..] + [Quit];
      if before[0].Turn? {
        var towards := before[0].towards;
        var next := FilterTurn(start, current, towards);
        FilterTurnsStopsAtQuit(start, next, before[1..], after);
      }
    }
  }

  /** The self-bite test leaves out the tail even while the snake is
      digesting, when the tail does not move away: a digesting snake whose
      head is next to its tail steps onto it without a collision, and the
      body then covers that cell twice. */
  lemma DigestingSnakeMayEnterItsTail()
    ensures var body := [Point(1, 1), Point(1, 2), Point(2, 2), Point(2, 1)];
            && Connected(body)
            && !Collides(3, 3, body, Right)
            && var moved := Slithered(body, Right, true);
               moved[0] == moved[|moved| - 1]
  {
    var body := [Point(1, 1), Point(1, 2), Point(2, 2), Point(2, 1)];
    assert Step(body[0], Right) == Some(Point(2, 1));
  }

  /** A random draw the food may take: on no segment of `body`. */
  ghost predicate FoodCanBePlaced(draw: nat -> Point, body: seq<Point>) {
    exists k: nat :: draw(k) !in body
  }

  class Game {
    const width: u16
    const height: u16
    const speed: u8
    const snake: Snake
    var food: Option<Point>

    ghost predicate Valid()
      reads this, snake
    {
      && 1 <= width && 1 <= height
      && speed == InitialSpeed
      && |snake.body| >= StartLength
      && InGrid(snake.body[0], width, height)
      && (food.Some? ==> InGrid(food.value, width, height) && food.value !in snake.body)
    }

    /** `Game::new`; `heading` stands for the random start heading. The
        requires excludes the grids on which `Snake::new` would panic and
        the empty grid, on which the first `place_food` of `run` panics in
        `gen_range(0, 0)`. */
    constructor (width: u16, height: u16, heading: Direction)
      requires 1 <= width && 1 <= height
      requires LayoutDefined(Point(width / 2, height / 2), StartLength, heading)
      ensures Valid() && fresh(snake)
      ensures this.width == width && this.height == height
      ensures snake.body == Layout(Point(width / 2, height / 2), StartLength, heading)
      ensures snake.direction == heading && !snake.digesting
      ensures food == None
    {
      this.width := width;
      this.height := height;
      speed := InitialSpeed;
      food := None;
      snake := new Snake(Point(width / 2, height / 2), StartLength, heading);
    }

    /** The score printed at the end of `run`: the snake's length. */
    function Score(): (s: nat)
      reads this, snake
      requires Valid()
      ensures s == |snake.body| && s >= StartLength
    {
      |snake.body|
    }

    /** `has_bitten_itself`: copies the body, removes its last and its first
        point, and looks for the next head among the rest. The two removes
        panic on a body shorter than 2, and `apply_delta` on a step below 0. */
    method HasBittenItself() returns (bitten: bool)
      requires |snake.body| >= 2 && Step(snake.body[0], snake.direction).Some?
      ensures bitten == BitesItself(snake.body, snake.direction)
      ensures bitten <==> exists i :: 1 <= i < |snake.body| - 1 && snake.body[i] == Step(snake.Head(), snake.direction).value
    {
      var nextHead := Step(snake.Head(), snake.direction).value;
      var points := snake.body;
      points := points[..|points| - 1];
      points := points[1..];
      bitten := nextHead in points;
      assert forall i :: 1 <= i < |snake.body| - 1 ==> snake.body[i] == points[i - 1];
    }

    /** `place_food`: take random draws until one is not on the snake.
        `draw(k)` is the k-th draw; every draw is on the grid, as
        `gen_range` promises. The loop ends only if some draw is free, which
        the requires states. */
    method PlaceFood(draw: nat -> Point)
      requires forall k: nat :: InGrid(draw(k), width, height)
      requires FoodCanBePlaced(draw, snake.body)
      modifies this`food
      ensures food.Some? && InGrid(food.value, width, height) && !snake.ContainsPoint(food.value)
      ensures exists k: nat :: food == Some(draw(k)) && forall j: nat :: j < k ==> draw(j) in snake.body
    {
      ghost var free: nat :| draw(free) !in snake.body;
      var k: nat := 0;
      while true
        invariant k <= free
        invariant forall j: nat :: j < k ==> draw(j) in snake.body
        decreases free - k
      {
        var point := draw(k);
        if !snake.ContainsPoint(point) {
          food := Some(point);
          break;
        }
        k := k + 1;
      }
    }

    /** Whether the food placement of the tick that `commands` drive can
        finish: either the head does not land on the food, or some draw is
        free of the moved snake. */
    ghost predicate TickCanPlaceFood(commands: seq<Command>, draw: nat -> Point)
      reads this, snake
      requires Valid()
    {
      var heading := FilterTurns(snake.direction, snake.direction, commands).heading;
      !Collides(width, height, snake.body, heading) ==>
        var moved := Slithered(snake.body, heading, snake.digesting);
        Some(moved[0]) == food ==> FoodCanBePlaced(draw, moved)
    }

    /** One iteration of `run`'s `while !done` loop. `commands` are the
        commands that arrived before the tick's interval elapsed, in order.
        A Quit stops the input loop but the rest of the tick still runs: the
        collision test, and the move when there is no collision. */
    method Tick(commands: seq<Command>, draw: nat -> Point) returns (done: bool)
      requires Valid()
      requires forall k: nat :: InGrid(draw(k), width, height)
      requires TickCanPlaceFood(commands, draw)
      modifies this`food, snake
      ensures Valid()
      ensures var turns := FilterTurns(old(snake.direction), old(snake.direction), commands);
              snake.direction == turns.heading &&
              done == (turns.quit || Collides(width, height, old(snake.body), turns.heading))
      ensures Collides(width, height, old(snake.body), snake.direction) ==>
                snake.body == old(snake.body) && snake.digesting == old(snake.digesting) && food == old(food)
      ensures !Collides(width, height, old(snake.body), snake.direction) ==>
                snake.body == Slithered(old(snake.body), snake.direction, old(snake.digesting))
      ensures !Collides(width, height, old(snake.body), snake.direction) && Some(snake.body[0]) != old(food) ==>
                !snake.digesting && food == old(food)
      ensures !Collides(width, height, old(snake.body), snake.direction) && Some(snake.body[0]) == old(food) ==>
                snake.digesting && food.Some? &&
                exists k: nat :: food == Some(draw(k)) && forall j: nat :: j < k ==> draw(j) in snake.body
    {
      var heading := snake.direction;
      done := false;
      var i := 0;
      while i < |commands|
        invariant 0 <= i <= |commands|
        invariant !done
        invariant snake.body == old(snake.body) && snake.digesting == old(snake.digesting) && food == old(food)
        invariant FilterTurns(heading, snake.direction, commands[i..]) == FilterTurns(heading, heading, commands)
      {
        match commands[i] {
          case Quit =>
            done := true;
            break;
          case Turn(towards) =>
            if Perpendicular(towards, heading) {
              snake.SetDirection(towards);
            }
        }
        i := i + 1;
      }
      var collided := HasCollidedWithWall(width, height, snake.Head(), snake.direction);
      if !collided {
        collided := HasBittenItself();
      }
      if collided {
        done := true;
      } else {
        snake.Slither();
        if food.Some? && snake.Head() == food.value {
          snake.Grow();
          PlaceFood(draw);
        }
      }
    }
  }
}
