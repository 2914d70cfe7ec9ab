/** The player's paddle: where a level reset puts it and how the arrow keys move it. */
module PaddleMotion {
  import opened Geometry

  const PADDLE_WIDTH: int := 100
  const PADDLE_HEIGHT: int := 10
  /** Pixels the paddle moves per frame while an arrow key is held. */
  const PADDLE_STEP: int := 5

  /** The paddle a level reset builds: centred, 30 pixels above the bottom edge. */
  function Initial(): Rect {
    Rect(SCREEN_WIDTH / 2 - PADDLE_WIDTH / 2, SCREEN_HEIGHT - 30, PADDLE_WIDTH, PADDLE_HEIGHT)
  }

  /** The arrow keys held during one frame. */
  datatype Arrows = Arrows(left: bool, right: bool)

  /**
    One frame of paddle motion: LEFT moves 5 pixels left if the left edge is
    still right of the screen's edge, then RIGHT moves 5 pixels right if the
    right edge is still left of the screen's right edge. Holding both keys
    away from the edges therefore leaves the paddle where it was.
   */
  function Move(p: Rect, keys: Arrows): (r: Rect)
    ensures r.y == p.y && r.w == p.w && r.h == p.h
    ensures r.x == p.x - PADDLE_STEP || r.x == p.x || r.x == p.x + PADDLE_STEP
    ensures !keys.left && !keys.right ==> r == p
    ensures r.x < p.x ==> keys.left && 0 < p.Left()
    ensures r.x > p.x ==> keys.right && p.Right() < SCREEN_WIDTH
    ensures keys.left && !keys.right && 0 < p.Left() ==> r.x == p.x - PADDLE_STEP
    ensures keys.right && !keys.left && p.Right() < SCREEN_WIDTH ==> r.x == p.x + PADDLE_STEP
    ensures keys.left && keys.right && 0 < p.Left() && p.Right() <= SCREEN_WIDTH ==> r.x == p.x
    ensures keys.left && keys.right && p.Left() <= 0 && p.Right() < SCREEN_WIDTH ==> r.x == p.x + PADDLE_STEP
  {
    var p1 := if keys.left && p.Left() > 0 then p.(x := p.x - PADDLE_STEP) else p;
    if keys.right && p1.Right() < SCREEN_WIDTH then p1.(x := p1.x + PADDLE_STEP) else p1
  }

  /**
    What every paddle reachable from the initial one satisfies: its size and
    height unchanged, its left edge on the 5-pixel grid, and fully on screen.
   */
  predicate Valid(p: Rect) {
    && p.y == Initial().y && p.w == PADDLE_WIDTH && p.h == PADDLE_HEIGHT
    && p.x % PADDLE_STEP == 0
    && 0 <= p.Left() && p.Right() <= SCREEN_WIDTH
  }

  lemma InitialValid()
    ensures Valid(Initial())
    ensures Initial().x == 350
  {
  }

  /** One frame of motion keeps a valid paddle valid. */
  lemma MovePreservesValid(p: Rect, keys: Arrows)
    requires Valid(p)
    ensures Valid(Move(p, keys))
  {
  }

  /** The paddle after a sequence of frames with the given keys held. */
  function Drive(p: Rect, frames: seq<Arrows>): Rect
    decreases |frames|
  {
    if |frames| == 0 then p else Drive(Move(p, frames[0]), frames[1..])
  }

  /**
    From the reset position, any sequence of key frames leaves the paddle
    entirely on screen.
   */
  lemma {:induction false} StaysOnScreen(frames: seq<Arrows>)
    ensures 0 <= Drive(Initial(), frames).Left()
    ensures Drive(Initial(), frames).Right() <= SCREEN_WIDTH
  {
    InitialValid();
    DriveValid(Initial(), frames);
  }

  lemma {:induction false} DriveValid(p: Rect, frames: seq<Arrows>)
    requires Valid(p)
    ensures Valid(Drive(p, frames))
    decreases |frames|
  {
    if |frames| > 0 {
      MovePreservesValid(p, frames[0]);
      DriveValid(Move(p, frames[0]), frames[1..]);
    }
  }

  /**
    The guards alone do not keep the paddle on screen: a paddle off the
    5-pixel grid at x = 3 steps to x = -2. The bound rests on the paddle
    starting at 350.
   */
  lemma GuardAloneInsufficient()
    ensures Move(Initial().(x := 3), Arrows(true, false)).Left() < 0
  {
  }
}
