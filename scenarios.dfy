/** Client programs: short games on a 5 x 5 grid, checked only through the
    contracts of the game and the snake. */
module Scenarios {
  import opened Wrappers
  import opened Directions
  import opened Points
  import opened Snakes
  import opened Games

  /** A snake of length 3 in the middle heading Right moves one cell per
      tick without input and hits the right wall on the third tick; the
      score stays 3. */
  method WalkIntoWall() {
    var g := new Game(5, 5, Right);
    assert g.snake.body == [Point(2, 2), Point(1, 2), Point(0, 2)];
    var nowhere := (k: nat) => Point(0, 0);
    var done := g.Tick([], nowhere);
    assert !done;
    assert g.snake.body == [Point(3, 2), Point(2, 2), Point(1, 2)];
    done := g.Tick([], nowhere);
    assert !done && g.snake.body[0] == Point(4, 2);
    done := g.Tick([], nowhere);
    assert done && g.snake.body[0] == Point(4, 2);
    assert g.Score() == 3;
  }

  /** Food straight ahead: the tick that reaches it arms digestion and
      places new food off the snake; the body grows on the following tick
      and keeps its old tail. */
  method EatFoodAhead() {
    var g := new Game(5, 5, Right);
    var ahead := (k: nat) => Point(3, 2);
    assert ahead(0) !in g.snake.body;
    g.PlaceFood(ahead);
    assert g.food == Some(Point(3, 2));
    var corner := (k: nat) => Point(0, 0);
    assert corner(0) !in [Point(3, 2), Point(2, 2), Point(1, 2)];
    var done := g.Tick([], corner);
    assert !done && g.snake.digesting && g.Score() == 3;
    assert g.food == Some(Point(0, 0));
    done := g.Tick([], corner);
    assert !done && !g.snake.digesting && g.Score() == 4;
    assert g.snake.body == [Point(4, 2), Point(3, 2), Point(2, 2), Point(1, 2)];
  }

  /** Reversals are refused twice over: against the start heading by the
      tick's filter and against the current heading by `set_direction`. A
      Quit does not stop the move of its own tick. */
  method TurnsAndQuit() {
    var g := new Game(5, 5, Right);
    var corner := (k: nat) => Point(0, 0);
    var done := g.Tick([Turn(Left)], corner);
    assert !done && g.snake.direction == Right;
    done := g.Tick([Turn(Up), Turn(Down)], corner);
    assert !done && g.snake.direction == Up;
    assert g.snake.body[0] == Point(3, 1);
    done := g.Tick([Quit, Turn(Right)], corner);
    assert done && g.snake.direction == Up;
    assert g.snake.body[0] == Point(3, 0);
  }
}
