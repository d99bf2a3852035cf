# snake-rs, modelled in Dafny

A model of the simulation core of a terminal Snake game written in Rust:
the geometry of the grid (`src/direction.rs`, `src/point.rs`), the snake
and its movement rules (`src/snake.rs`), and one tick of the game loop with
its collision tests and food placement (`src/game.rs`). Drawing, real time
and randomness are replaced by parameters.

- `Directions` — the four headings, `Opposite` and the unit step `Delta`
  (y grows downward, as on a screen).
- `Points` — grid points with u16 coordinates. `Point::new(x, y)` is the
  datatype constructor `Point(x, y)`. `ApplyDeltaToValue` and `ApplyDelta`
  return `None` exactly where the Rust code panics.
- `Snakes` — the `Snake` class. Its fields are the same as in Rust: the
  head-first `body` (a `seq<Point>` that the methods reassign, as the Rust
  `Vec` is edited in place), `direction` and `digesting`. Its methods are
  tied to pure functions (`Layout`, `Slithered`, `Turned`), and the lemmas
  are about those functions.
- `Games` — the `Game` class (`width`, `height`, `speed`, `snake`, `food`).
  Its invariant `Valid` says: the grid is not empty, the speed is 10, the
  snake has at least 3 segments, the head is on the grid, and food, when
  present, is on the grid and off the snake. `Tick` is one iteration of
  `run`'s `while !done` loop. It first filters the turns that arrived,
  checks a wall ahead, checks a self-bite (short-circuited), then slithers,
  and when the head lands on the food, grows and places new food.
- `Scenarios` — three short games on a 5 x 5 grid, with no contracts of
  their own, checked through the contracts above.

`apply_delta` could panic at src/game.rs:152 and src/snake.rs:39. In the
model, `Game.HasBittenItself` and `Snake.Slither` carry the precondition
that the step is defined, and `Tick` verifies against those preconditions.
So the wall test, which runs first, rules out both panics. The fact behind
this is `HasCollidedWithWall`'s postcondition: for a head on the grid, the
wall test is true exactly when the next step would panic or leave the grid.

Machine integers are subset types (`u8`, `u16`, `i16`). The casts and the
i16 arithmetic use the wrap-around of a release build (`WrapU16`,
`WrapI16`).

Randomness, time and input:
- The random start heading of `Game::new` is a constructor parameter.
- The random cells of `place_food` come from an oracle `draw: nat -> Point`.
  Every draw is on the grid, as `gen_range` promises.
- The input of one tick is the sequence of `Command`s that arrived before
  the interval elapsed.

Behaviour the model keeps exactly as the code has it:
- There is no score counter and no speed ramp. The speed stays 10. The
  printed score is the snake's length (src/game.rs:100). That line calls
  `self.snake.len()`, a method src/snake.rs does not define; the model reads
  it as the body length.
- A Quit ends the input loop but not the tick. The collision test still
  runs, and so may one slither (src/game.rs:69-95).
- Turns are filtered against the heading captured at the start of the tick
  (src/game.rs:59, src/game.rs:74). They then pass `set_direction`'s own
  reversal guard against the current heading. So Up followed by Down in a
  tick that started heading Right leaves the snake heading Up.
- Growth is deferred. `grow` only arms `digesting`; the body grows on the
  next `slither`. The reported length therefore rises one tick after the
  food is eaten.
- The self-bite test leaves out the tail even while digesting.
  `DigestingSnakeMayEnterItsTail` shows a snake that steps onto its own tail
  without a collision.

## Model

| member | source | states |
|---|---|---|
| Ints.WrapU16 | src/point.rs:23 | the `as u16` cast: the identity on the u16 range, otherwise a value congruent modulo 2^16 |
| Ints.WrapI16 | src/snake.rs:16 | the `as i16` cast and wrapping i16 product: the identity on the i16 range, otherwise congruent modulo 2^16 |
| Directions.Opposite | src/direction.rs:10-17 | the opposite heading differs from the heading and its delta is the component-wise negation |
| Directions.Delta | src/direction.rs:37-44 | every delta is a unit orthogonal step; y decreases exactly for Up, increases exactly for Down, x increases exactly for Right, decreases exactly for Left |
| Directions.OppositeIsInvolution | src/direction.rs:10-17 | opposite of opposite is the heading itself |
| Directions.DeltaIsInjective | src/direction.rs:37-44 | distinct headings have distinct deltas |
| Directions.PerpendicularIsSymmetric | src/game.rs:74 | being a quarter turn apart is symmetric |
| Points.ApplyDeltaToValue | src/point.rs:19-25 | fails exactly when the delta is negative and larger in magnitude than the value; otherwise the result is value + delta, reduced by 2^16 when the sum passes the u16 range |
| Points.ApplyDelta | src/point.rs:12-17 | defined exactly when both coordinates are, each coordinate moved independently by `ApplyDeltaToValue` |
| Points.ApplyZeroIsIdentity | src/point.rs:12-25 | applying (0, 0) gives the point back |
| Points.ApplyDeltaRoundTrip | src/point.rs:12-25 | applying a delta and then its negation returns the original point whenever both are defined |
| Points.StepIsAdjacent | src/point.rs:12-25 | a step along a heading that does not pass the top of the u16 range moves by exactly the heading's delta, to an adjacent point |
| Points.StepFailsOnlyAtLowEdge | src/point.rs:19-25 | a one-cell step panics exactly on the low edge it heads toward: y = 0 heading Up, or x = 0 heading Left |
| Points.WrapNeverRoundTrips | src/point.rs:19-25 | a move that wraps past the top of the u16 range is defined, and moving back by the negated delta then panics |
| Snakes.Layout | src/snake.rs:12-19 | the body of `Snake::new` has exactly `length` points, starts at `start`, and point i is `start` moved i steps against the heading (modulo 2^16) |
| Snakes.ScaledDelta | src/snake.rs:16 | the offset `delta * (i as i16)` of segment i, computed with wrapping i16 arithmetic; for a unit step and i below 32768 it is the exact product |
| Snakes.LayoutDefined | src/snake.rs:13-17 | no segment's `apply_delta` in `Snake::new` panics; a body laid out rightward or downward (heading Left or Up) of at most 32768 segments never panics |
| Snakes.LayoutDefinedIff | src/snake.rs:13-17 | for lengths up to 32768, `Snake::new` panics exactly when the body would reach below 0, that is heading Right with x < length - 1 or heading Down with y < length - 1 |
| Snakes.LayoutIsConnected | src/snake.rs:13-17 | a body laid out by `Snake::new` has consecutive segments one orthogonal unit step apart |
| Snakes.Slithered | src/snake.rs:38-45 | the new head is one step from the old head; without digestion the length is kept and the rest is the old body without its tail; with digestion the length grows by one and the whole old body follows; no other point appears |
| Snakes.SlitherKeepsConnected | src/snake.rs:38-45 | `slither` keeps consecutive segments one unit step apart |
| Snakes.GrowThenSlitherKeepsTail | src/snake.rs:38-55 | after `grow`, one `slither` lengthens the body by one and keeps every old segment, the old tail included, shifted by one |
| Snakes.Turned | src/snake.rs:47-51 | the heading becomes d exactly when d is not the reversal of the current heading, is otherwise unchanged, and is never the reversal |
| Snakes.Snake.constructor | src/snake.rs:12-20 | `Snake::new` stores the layout, the heading and `digesting == false`; it requires that no segment's `apply_delta` panics |
| Snakes.Snake.Head | src/snake.rs:22-24 | the head is the first body point; an empty body is excluded, as `unwrap` panics on it |
| Snakes.Snake.ContainsPoint | src/snake.rs:34-36 | true iff the point occurs somewhere in the body |
| Snakes.Snake.Slither | src/snake.rs:38-45 | the body becomes `Slithered` of the old body, heading and flag, and `digesting` is false afterwards; requires the head step not to panic |
| Snakes.Snake.SetDirection | src/snake.rs:47-51 | the heading becomes `Turned(old heading, d)`; body and flag are untouched |
| Snakes.Snake.Grow | src/snake.rs:53-55 | `digesting` becomes true, nothing else changes, so a second call has no further effect |
| Games.CommandOf | src/game.rs:121-130 | q, Q and Esc give Quit; each arrow key gives the turn toward its heading; every other key gives nothing |
| Games.CalculateInterval | src/game.rs:110-114 | the interval is at most 1000 ms, is 0 exactly at speed 20, and is 500 ms at the initial speed 10; speeds above 20 (u64 underflow) are excluded |
| Games.IntervalShrinksWithSpeed | src/game.rs:110-114 | a higher speed never gives a longer interval |
| Games.HasCollidedWithWall | src/game.rs:139-148 | for a head on the grid, true exactly when the next step would panic or leave the grid; the grid is taken non-empty, since on an empty grid `run`'s first `place_food` (src/game.rs:53) panics in `gen_range(0, 0)` (src/game.rs:162) before any tick |
| Games.BitesItself | src/game.rs:151-157 | the next head equals a body point other than the first and the last; so only a body of at least 3 points can bite itself |
| Games.Collides | src/game.rs:82 | a wall ahead, or else (short-circuit) a self-bite; when there is no collision the next step is defined and stays on the grid |
| Games.FilterTurn | src/game.rs:73-77 | one turn of the input loop: the heading stays, or becomes `towards` when that is a quarter turn from the tick's start heading; it becomes `towards` whenever that is a quarter turn from the start heading and not the reversal of the current heading, and it never becomes that reversal |
| Games.FilterTurns | src/game.rs:61-80 | the input loop over a tick's commands up to the first Quit; the final heading is the current one or one of the turns that arrived. `Tick`'s loop is proved equal to it |
| Games.FilterTurnsLastTurnWins | src/game.rs:73-76 | the heading is overwritten, not queued: a last turn that passes both guards decides the heading, whatever turns came before it |
| Games.FilterTurnsNeverReverses | src/game.rs:59-80 | whatever turns arrive in a tick, the final heading is the start heading or a quarter turn from it, never its reversal |
| Games.FilterTurnsQuitsOnQuit | src/game.rs:67-72 | the tick records a Quit exactly when one arrived |
| Games.FilterTurnsStopsAtQuit | src/game.rs:69-72 | commands after the first Quit of a tick have no effect |
| Games.DigestingSnakeMayEnterItsTail | src/game.rs:150-158 | a concrete digesting snake steps onto its own tail with no collision and then covers that cell twice |
| Games.Game.constructor | src/game.rs:29-49 | `Game::new` gives a snake of length 3 at (width/2, height/2) with the given heading, no food, speed 10, and a valid game; requires a grid on which the layout does not panic and which is non-empty, as `place_food`'s `gen_range` needs (src/game.rs:162) |
| Games.Game.Score | src/game.rs:100 | the reported score is the snake's body length, at least 3 |
| Games.Game.HasBittenItself | src/game.rs:150-158 | true iff the next head equals a body point other than the first and the last; requires at least two segments and a defined step |
| Games.Game.PlaceFood | src/game.rs:160-170 | the food becomes the first draw not on the snake, so it lies on the grid and off the snake |
| Games.Game.Tick | src/game.rs:56-96 | the heading is the filtered one; done is set by a Quit or a collision; a collision leaves body, flag and food unchanged; otherwise the body slithers exactly once, and the snake grows and gets new food off its body exactly when the new head is on the food; the game invariant is kept |

## Left out

- Terminal output is not modelled: `prepare_ui`, `restore_ui`, `render`, `draw_snake`, `draw_food`, `draw_background`, `draw_borders`, the `stdout` field, and the terminal size (`size()`, `original_terminal_size`). They have no game logic.
- Input polling is not modelled. `get_command`'s `poll`/`read` becomes the command sequence of a tick; only its key table is kept (`CommandOf`).
- Real time is not modelled: `Instant`, `Duration` and the busy-wait of the input loop. `CalculateInterval` is modelled but nothing in `Tick` uses it.
- Randomness is not modelled. The start heading is a parameter, and `place_food` reads an oracle of draws.
- The outer `while !done` loop of `run` and its initial `place_food` are not one method. They are repeated `Tick` calls after a `PlaceFood` call. Each tick's food placement ends only under a condition on the state that tick reaches.
- Games.Game.PlaceFood: requires that some draw is free. Without a free draw the Rust loop never ends (a full grid), and that non-termination is not modelled. `Tick` requires, for the case that the moved head lands on the food, that some draw is off the moved body.
- Points.ApplyDeltaToValue: follows the release build. A debug build also panics in three more places. First, the i16 sum `value as i16 + delta` overflows when value + delta crosses between 32767 and 32768: 32767 + 1 overflows, while 40000 + 1 (that is, -25536 + 1) does not; the `as i16` cast itself never panics. Second, `delta.abs()` overflows at delta = -32768 (src/point.rs:20). Third, in `Snake::new`, the product `delta.0 * (i as i16)` overflows at i = 32768 when that component is -1, since `i as i16` is then -32768: x for heading Right, y for heading Down (src/snake.rs:16).
- Snakes.Layout: the closed form of point i is stated only for i < 32768. Beyond that, `i as i16` wraps.
- Snakes.LayoutDefinedIff: stated only for lengths up to 32768.
- Snakes.LayoutIsConnected: requires a length of at most 32768, and requires that the body does not pass the top of the u16 range, where the coordinate wraps to 0.
- Snakes.SlitherKeepsConnected: requires that the head is below 65535 in both coordinates, for the same reason. On any grid the game can have, this holds.
- The getters `get_body_points` and `get_direction` are plain reads of the `body` and `direction` fields.
- src/main.rs is not part of this model. It only starts a 10 x 10 game.
