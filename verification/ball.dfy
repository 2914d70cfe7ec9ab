/**
  The ball: its rectangle and velocity, one frame of motion, and the
  reflections off the walls and the paddle.

  Velocities are exact reals. The game stores them as floating-point numbers
  once the first speed-up has scaled them; rounding of the scale factors is
  not modelled.
 */
module BallPhysics {
  import opened Geometry

  const BALL_SIZE: int := 10
  /** Speed-up applied to both components on every paddle hit. */
  const PADDLE_SPEEDUP: real := 1.02

  datatype Ball = Ball(rect: Rect, dx: real, dy: real)

  function Abs(v: real): real {
    if v < 0.0 then -v else v
  }

  /**
    Conversion of a real coordinate back to the rectangle's integer
    coordinate, rounding toward zero. The graphics library's own conversion is
    not part of this model; truncation is assumed.
   */
  function Trunc(v: real): (n: int)
    ensures 0.0 <= v ==> n as real <= v < n as real + 1.0
    ensures v < 0.0 ==> n as real - 1.0 < v <= n as real
  {
    if v >= 0.0 then v.Floor else -((-v).Floor)
  }

  /**
    One frame of motion: each coordinate advances by its velocity component,
    truncated back to an integer; size and velocity are unchanged.
   */
  function Move(b: Ball): (r: Ball)
    ensures r.dx == b.dx && r.dy == b.dy
    ensures r.rect.w == b.rect.w && r.rect.h == b.rect.h
    ensures Abs(r.rect.x as real - (b.rect.x as real + b.dx)) < 1.0
    ensures Abs(r.rect.y as real - (b.rect.y as real + b.dy)) < 1.0
  {
    b.(rect := b.rect.(x := Trunc(b.rect.x as real + b.dx), y := Trunc(b.rect.y as real + b.dy)))
  }

  /** The ball touches or crosses the left or right edge of the window. */
  predicate AtSideWall(r: Rect) {
    r.Left() <= 0 || r.Right() >= SCREEN_WIDTH
  }

  /** The ball touches or crosses the top edge of the window. */
  predicate AtTopWall(r: Rect) {
    r.Top() <= 0
  }

  /**
    Wall reflection: a side contact negates dx, a top contact negates dy, and
    neither changes the magnitude of either component or moves the ball.
   */
  function Walls(b: Ball): (r: Ball)
    ensures r.rect == b.rect
    ensures Abs(r.dx) == Abs(b.dx) && Abs(r.dy) == Abs(b.dy)
    ensures AtSideWall(b.rect) ==> r.dx == -b.dx
    ensures !AtSideWall(b.rect) ==> r.dx == b.dx
    ensures AtTopWall(b.rect) ==> r.dy == -b.dy
    ensures !AtTopWall(b.rect) ==> r.dy == b.dy
  {
    var dx := if AtSideWall(b.rect) then -b.dx else b.dx;
    var dy := if AtTopWall(b.rect) then -b.dy else b.dy;
    b.(dx := dx, dy := dy)
  }

  /**
    Paddle reflection: on overlap dy is negated and both components grow by
    2 percent; otherwise nothing changes. The ball never slows down.
   */
  function PaddleBounce(b: Ball, paddle: Rect): (r: Ball)
    ensures r.rect == b.rect
    ensures Abs(r.dx) >= Abs(b.dx) && Abs(r.dy) >= Abs(b.dy)
    ensures Overlaps(b.rect, paddle) ==> r.dx == b.dx * PADDLE_SPEEDUP && r.dy == -b.dy * PADDLE_SPEEDUP
    ensures !Overlaps(b.rect, paddle) ==> r == b
  {
    if Overlaps(b.rect, paddle) then
      b.(dx := b.dx * PADDLE_SPEEDUP, dy := -b.dy * PADDLE_SPEEDUP)
    else b
  }

  /**
    The paddle reflection negates dy rather than forcing it upward: a ball
    already rising when it overlaps the paddle (here, caught by the paddle's
    side) is sent back down.
   */
  lemma RisingBallSentDown()
    ensures var b := Ball(Rect(343, 562, BALL_SIZE, BALL_SIZE), 3.0, -3.0);
            var p := Rect(350, 570, 100, 10);
            Overlaps(b.rect, p) && PaddleBounce(b, p).dy > 0.0
  {
  }
}
