/**
  The game's rule logic as a deterministic per-frame step over an explicit
  state: score, lives, the active flag, the paddle, the ball and the brick
  list. Drawing, fonts, sound and the frame clock are not part of it; the
  keys held in a frame and the random serve direction are inputs.
 */
module Game {
  import opened Wrappers
  import opened Geometry
  import opened Seqs
  import opened Bricks
  import opened BallPhysics
  import PaddleMotion

  const START_LIVES: int := 3
  /** Initial speed of both velocity components; never changed by the game. */
  const BALL_SPEED: int := 3
  const BRICK_POINTS: int := 10
  /** A brick that brings the score to a multiple of this speeds the ball up. */
  const BOOST_SCORE: int := 50
  const BRICK_SPEEDUP: real := 1.1

  /** The horizontal direction a new ball is served in, chosen at random by the game. */
  datatype Serve = ServeRight | ServeLeft {
    function Sign(): int {
      match this
      case ServeRight => 1
      case ServeLeft => -1
    }
  }

  /**
    What one frame reads from outside: the arrow keys and SPACE as held, and
    the serve direction any level reset during the frame would draw.
   */
  datatype Input = Input(arrows: PaddleMotion.Arrows, space: bool, serve: Serve)

  datatype State = State(
    score: int,
    lives: int,
    active: bool,
    paddle: Rect,
    ball: Ball,
    bricks: seq<Brick>)

  /**
    The level reset: paddle centred, ball at the screen centre served
    upward at speed 3 in the given direction, and a full brick field; score,
    lives and the active flag are kept.
   */
  function ResetObjects(s: State, serve: Serve): (r: State)
    ensures r.score == s.score && r.lives == s.lives && r.active == s.active
    ensures r.paddle == PaddleMotion.Initial() && r.bricks == Field()
    ensures r.ball.rect == Rect(SCREEN_WIDTH / 2, SCREEN_HEIGHT / 2, BALL_SIZE, BALL_SIZE)
    ensures r.ball.dy < 0.0 && Abs(r.ball.dx) == Abs(r.ball.dy) == BALL_SPEED as real
  {
    s.(paddle := PaddleMotion.Initial(),
       ball := Ball(Rect(SCREEN_WIDTH / 2, SCREEN_HEIGHT / 2, BALL_SIZE, BALL_SIZE),
                    (BALL_SPEED * serve.Sign()) as real, (-BALL_SPEED) as real),
       bricks := Field())
  }

  /** A freshly constructed game: score 0, three lives, paused, objects reset. */
  function NewGame(serve: Serve): (r: State)
    ensures r.score == 0 && r.lives == START_LIVES && !r.active
    ensures |r.bricks| == 48
  {
    FieldLayout();
    ResetObjects(State(0, START_LIVES, false, Rect(0, 0, 0, 0), Ball(Rect(0, 0, 0, 0), 0.0, 0.0), []), serve)
  }

  /**
    The brick step: the first brick in list order that the ball overlaps is
    removed (by value, as the game does), dy is negated and 10 points are
    added; if the new score is a multiple of 50 both components then grow by
    10 percent. With no overlapping brick nothing changes.
   */
  function BrickStep(s: State): (r: State)
    ensures FirstHit(s.ball.rect, s.bricks).None? ==> r == s
    ensures FirstHit(s.ball.rect, s.bricks).Some? ==>
      var i := FirstHit(s.ball.rect, s.bricks).value;
      && r.bricks == s.bricks[..i] + s.bricks[i + 1..]
      && r.score == s.score + BRICK_POINTS
      && r.lives == s.lives && r.active == s.active && r.paddle == s.paddle
      && r.ball.rect == s.ball.rect
      && (r.score % BOOST_SCORE == 0 ==> r.ball.dx == s.ball.dx * BRICK_SPEEDUP && r.ball.dy == -s.ball.dy * BRICK_SPEEDUP)
      && (r.score % BOOST_SCORE != 0 ==> r.ball.dx == s.ball.dx && r.ball.dy == -s.ball.dy)
    ensures |r.bricks| == |s.bricks| <==> FirstHit(s.ball.rect, s.bricks).None?
    ensures |r.bricks| == |s.bricks| - 1 <==> FirstHit(s.ball.rect, s.bricks).Some?
  {
    match FirstHit(s.ball.rect, s.bricks)
    case None => s
    case Some(i) =>
      RemoveHit(s.ball.rect, s.bricks);
      var score := s.score + BRICK_POINTS;
      var ball := s.ball.(dy := -s.ball.dy);
      var ball := if score % BOOST_SCORE == 0
                  then ball.(dx := ball.dx * BRICK_SPEEDUP, dy := ball.dy * BRICK_SPEEDUP)
                  else ball;
      s.(bricks := RemoveFirst(s.bricks, s.bricks[i]), score := score, ball := ball)
  }

  /** The first part of an active frame: move the paddle, move the ball, reflect off the walls. */
  function Prepared(s: State, input: Input): (r: State)
    ensures r.score == s.score && r.lives == s.lives && r.active == s.active && r.bricks == s.bricks
    ensures r.paddle.y == s.paddle.y && r.paddle.w == s.paddle.w
    ensures -PaddleMotion.PADDLE_STEP <= r.paddle.x - s.paddle.x <= PaddleMotion.PADDLE_STEP
    ensures r.ball.rect.w == s.ball.rect.w && r.ball.rect.h == s.ball.rect.h
    ensures Abs(r.ball.dx) == Abs(s.ball.dx) && Abs(r.ball.dy) == Abs(s.ball.dy)
    ensures r.ball.rect.Bottom() >= SCREEN_HEIGHT <==> BottomsOut(s)
  {
    s.(paddle := PaddleMotion.Move(s.paddle, input.arrows), ball := Walls(Move(s.ball)))
  }

  /** In an active frame from s, the moved ball's bottom edge reaches the bottom of the window. */
  predicate BottomsOut(s: State) {
    Move(s.ball).rect.Bottom() >= SCREEN_HEIGHT
  }

  /**
    Losing a life: lives drop by one; with lives left the objects are reset
    (score kept), otherwise play stops.
   */
  function LoseLife(s: State, serve: Serve): (r: State)
    ensures r.lives == s.lives - 1 && r.score == s.score
    ensures r.lives > 0 ==> r == ResetObjects(s.(lives := r.lives), serve)
    ensures r.lives <= 0 ==> r == s.(lives := r.lives, active := false)
  {
    var t := s.(lives := s.lives - 1);
    if t.lives > 0 then ResetObjects(t, serve) else t.(active := false)
  }

  /** The rest of an active frame when the ball stays in: paddle, bricks, then the win check. */
  function Bounces(s: State): (r: State)
    ensures r.lives == s.lives && r.paddle == s.paddle
    ensures r.score == s.score || r.score == s.score + BRICK_POINTS
    ensures r.score == s.score <==> r.bricks == s.bricks
    ensures r.score == s.score + BRICK_POINTS ==> |r.bricks| == |s.bricks| - 1
    ensures r.active <==> s.active && |r.bricks| > 0
  {
    var t := BrickStep(s.(ball := PaddleBounce(s.ball, s.paddle)));
    if |t.bricks| == 0 then t.(active := false) else t
  }

  /** One frame of active play. */
  function ActiveFrame(s: State, input: Input): (r: State)
    ensures BottomsOut(s) ==> r.lives == s.lives - 1 && r.score == s.score
    ensures !BottomsOut(s) ==> r.lives == s.lives
    ensures !BottomsOut(s) ==> r.score == s.score || r.score == s.score + BRICK_POINTS
  {
    var t := Prepared(s, input);
    if t.ball.rect.Bottom() >= SCREEN_HEIGHT then LoseLife(t, input.serve) else Bounces(t)
  }

  /** SPACE while play is stopped after a lost game or a cleared field: a new game begins. */
  predicate Restarts(s: State, input: Input) {
    !s.active && input.space && (s.lives <= 0 || |s.bricks| == 0)
  }

  /**
    One frame while play is stopped: SPACE starts a fresh game after a loss
    or a win and otherwise resumes the current one.
   */
  function IdleFrame(s: State, input: Input): (r: State)
    ensures !input.space ==> r == s
    ensures input.space && (s.lives <= 0 || |s.bricks| == 0) ==>
      r.active && r.score == 0 && r.lives == START_LIVES && |r.bricks| == 48
    ensures input.space && s.lives > 0 && |s.bricks| > 0 ==>
      r.active && r.score == s.score && r.lives == s.lives && r.bricks == s.bricks
  {
    if !input.space then s
    else if s.lives <= 0 || |s.bricks| == 0 then NewGame(input.serve).(active := true)
    else s.(active := true)
  }

  /** One frame of the game loop's rule logic. */
  function Step(s: State, input: Input): (r: State)
    ensures !s.active && !input.space ==> r == s
    ensures s.active ==> r.score == s.score || r.score == s.score + BRICK_POINTS
    ensures s.active ==> r.lives == s.lives || r.lives == s.lives - 1
  {
    if s.active then ActiveFrame(s, input) else IdleFrame(s, input)
  }

  /** In this frame the ball breaks a brick. */
  predicate BreaksBrick(s: State, input: Input) {
    && s.active
    && !BottomsOut(s)
    && FirstHit(Prepared(s, input).ball.rect, s.bricks).Some?
  }

  /**
    The score moves in exactly three ways: reset to 0 by a new game, +10 when a
    brick breaks, and otherwise not at all.
   */
  lemma StepScore(s: State, input: Input)
    ensures Restarts(s, input) ==> Step(s, input).score == 0
    ensures BreaksBrick(s, input) ==> Step(s, input).score == s.score + BRICK_POINTS
    ensures !Restarts(s, input) && !BreaksBrick(s, input) ==> Step(s, input).score == s.score
  {
  }

  /**
    What holds of every state the game reaches: the score is a non-negative
    multiple of 10, lives stay between 0 and 3, active play has a life and a
    brick left, the paddle is valid, the ball keeps its size and at least its
    serve speed on both axes, and the live bricks are the reset field with
    some bricks deleted, in their original order (`Remaining`).
   */
  predicate Inv(s: State) {
    && s.score >= 0 && s.score % BRICK_POINTS == 0
    && 0 <= s.lives <= START_LIVES
    && (s.active ==> s.lives > 0 && |s.bricks| > 0)
    && PaddleMotion.Valid(s.paddle)
    && s.ball.rect.w == BALL_SIZE && s.ball.rect.h == BALL_SIZE
    && Abs(s.ball.dx) >= BALL_SPEED as real && Abs(s.ball.dy) >= BALL_SPEED as real
    && Remaining(s.bricks)
  }

  lemma ResetObjectsInv(s: State, serve: Serve)
    requires s.score >= 0 && s.score % BRICK_POINTS == 0
    requires 0 < s.lives <= START_LIVES
    ensures Inv(ResetObjects(s, serve))
  {
    FieldLayout();
    FieldRemaining();
    PaddleMotion.InitialValid();
  }

  lemma {:induction false} NewGameInv(serve: Serve)
    ensures Inv(NewGame(serve))
    ensures Inv(NewGame(serve).(active := true))
  {
    var s := State(0, START_LIVES, false, Rect(0, 0, 0, 0), Ball(Rect(0, 0, 0, 0), 0.0, 0.0), []);
    ResetObjectsInv(s, serve);
    FieldLayout();
  }

  lemma PreparedInv(s: State, input: Input)
    requires Inv(s)
    ensures Inv(Prepared(s, input))
  {
    PaddleMotion.MovePreservesValid(s.paddle, input.arrows);
  }

  lemma {:induction false} BrickStepInv(q: State)
    requires Inv(q)
    ensures Inv(BrickStep(q).(active := false))
  {
    var t := BrickStep(q);
    match FirstHit(q.ball.rect, q.bricks)
    case None =>
    case Some(i) =>
      RemainingDelete(q.bricks, i);
      MultipleOfPoints(q.score);
      assert t.ball.rect == q.ball.rect && t.paddle == q.paddle && t.lives == q.lives;
      SpeedUpKeepsSpeed(q.ball, t.ball, t.score % BOOST_SCORE == 0);
  }

  lemma MultipleOfPoints(x: int)
    requires x % BRICK_POINTS == 0
    ensures (x + BRICK_POINTS) % BRICK_POINTS == 0
  {
    assert x == 10 * (x / 10);
    assert x + 10 == 10 * (x / 10 + 1);
  }

  lemma SpeedUpKeepsSpeed(b: Ball, b': Ball, boost: bool)
    requires Abs(b.dx) >= BALL_SPEED as real && Abs(b.dy) >= BALL_SPEED as real
    requires boost ==> b'.dx == b.dx * BRICK_SPEEDUP && b'.dy == -b.dy * BRICK_SPEEDUP
    requires !boost ==> b'.dx == b.dx && b'.dy == -b.dy
    ensures Abs(b'.dx) >= BALL_SPEED as real && Abs(b'.dy) >= BALL_SPEED as real
  {
  }

  lemma {:induction false} BouncesInv(s: State)
    requires Inv(s) && s.active
    ensures Inv(Bounces(s))
  {
    var q := s.(ball := PaddleBounce(s.ball, s.paddle));
    assert Inv(q);
    BrickStepInv(q);
  }

  lemma {:induction false} StepPreservesInv(s: State, input: Input)
    requires Inv(s)
    ensures Inv(Step(s, input))
  {
    if s.active {
      var t := Prepared(s, input);
      PreparedInv(s, input);
      if t.ball.rect.Bottom() >= SCREEN_HEIGHT {
        if t.lives - 1 > 0 {
          ResetObjectsInv(t.(lives := t.lives - 1), input.serve);
        }
      } else {
        BouncesInv(t);
      }
    } else if input.space && (s.lives <= 0 || |s.bricks| == 0) {
      NewGameInv(input.serve);
    }
  }

  /** The state after the frames `inputs`, in order. */
  function Run(s: State, inputs: seq<Input>): State
    decreases |inputs|
  {
    if |inputs| == 0 then s else Step(Run(s, inputs[..|inputs| - 1]), inputs[|inputs| - 1])
  }

  lemma {:induction false} RunPreservesInv(s: State, inputs: seq<Input>)
    requires Inv(s)
    ensures Inv(Run(s, inputs))
    decreases |inputs|
  {
    if |inputs| > 0 {
      RunPreservesInv(s, inputs[..|inputs| - 1]);
      StepPreservesInv(Run(s, inputs[..|inputs| - 1]), inputs[|inputs| - 1]);
    }
  }

  /**
    Every state reachable from a new game keeps the paddle on screen, the
    score a non-negative multiple of 10, lives between 0 and 3, and at most
    48 bricks, all on screen and no two overlapping.
   */
  lemma {:induction false} Reachable(serve: Serve, inputs: seq<Input>)
    ensures var r := Run(NewGame(serve), inputs);
      && 0 <= r.paddle.Left() && r.paddle.Right() <= SCREEN_WIDTH
      && r.score >= 0 && r.score % 10 == 0
      && 0 <= r.lives <= 3
      && |r.bricks| <= 48
      && (forall k :: 0 <= k < |r.bricks| ==> OnScreen(r.bricks[k].rect))
      && (forall k, l :: 0 <= k < l < |r.bricks| ==> !Overlaps(r.bricks[k].rect, r.bricks[l].rect))
  {
    NewGameInv(serve);
    RunPreservesInv(NewGame(serve), inputs);
    RemainingLayout(Run(NewGame(serve), inputs).bricks);
  }

  /** Some frame of `inputs` starts a fresh game. */
  predicate Restarted(s: State, inputs: seq<Input>)
    decreases |inputs|
  {
    && |inputs| > 0
    && (|| Restarted(s, inputs[..|inputs| - 1])
        || Restarts(Run(s, inputs[..|inputs| - 1]), inputs[|inputs| - 1]))
  }

  /** Bricks broken during `inputs` since the last fresh game among them (or since the start). */
  function Broken(s: State, inputs: seq<Input>): nat
    decreases |inputs|
  {
    if |inputs| == 0 then 0
    else
      var before := inputs[..|inputs| - 1];
      var p := Run(s, before);
      var last := inputs[|inputs| - 1];
      if Restarts(p, last) then 0
      else Broken(s, before) + (if BreaksBrick(p, last) then 1 else 0)
  }

  /**
    Score bookkeeping over any run: the score is 10 points per brick broken
    since the last fresh game, on top of the starting score when no fresh
    game began. Lost lives rebuild the field but do not touch the score, so
    it is not 10 times the number of bricks missing from the field.
   */
  lemma {:induction false} ScoreCountsBricks(s: State, inputs: seq<Input>)
    ensures Run(s, inputs).score
         == (if Restarted(s, inputs) then 0 else s.score) + BRICK_POINTS * Broken(s, inputs)
    decreases |inputs|
  {
    if |inputs| > 0 {
      var before := inputs[..|inputs| - 1];
      ScoreCountsBricks(s, before);
      StepScore(Run(s, before), inputs[|inputs| - 1]);
    }
  }

  lemma TenthsOfFifty(n: nat)
    ensures (BRICK_POINTS * (n + 1)) % BOOST_SCORE == 0 <==> (n + 1) % 5 == 0
  {
    var m := n + 1;
    assert 10 * m == 50 * (m / 5) + 10 * (m % 5);
    assert (10 * m) % 50 == 10 * (m % 5);
  }

  /**
    The speed boost: with 10 * n points on the board, breaking a brick
    multiplies dx by 1.1 exactly when it is the (5k)-th brick, and leaves dx
    alone otherwise.
   */
  lemma {:induction false} BoostEveryFifthBrick(s: State, n: nat)
    requires s.score == BRICK_POINTS * n
    requires FirstHit(s.ball.rect, s.bricks).Some?
    requires s.ball.dx != 0.0
    ensures BrickStep(s).ball.dx == s.ball.dx * BRICK_SPEEDUP <==> (n + 1) % 5 == 0
    ensures BrickStep(s).ball.dx == s.ball.dx <==> (n + 1) % 5 != 0
  {
    TenthsOfFifty(n);
  }

  /**
    A frame in which the ball stays in: at most one brick goes, the first one
    in list order the moved ball overlaps, the others keeping their order;
    breaking it adds 10 points and reverses dy, otherwise bricks and score are
    untouched. Lives never change, and play stops exactly when the field is empty.
   */
  lemma {:induction false} BrickFrame(s: State, input: Input)
    requires s.active && !BottomsOut(s)
    ensures var t := Prepared(s, input);
            var q := PaddleBounce(t.ball, t.paddle);
            var r := Step(s, input);
            && r.lives == s.lives
            && (r.active <==> |r.bricks| > 0)
            && (FirstHit(t.ball.rect, s.bricks).None? ==>
                  r.bricks == s.bricks && r.score == s.score && r.ball == q)
            && (FirstHit(t.ball.rect, s.bricks).Some? ==>
                  var i := FirstHit(t.ball.rect, s.bricks).value;
                  && Overlaps(t.ball.rect, s.bricks[i].rect)
                  && r.bricks == s.bricks[..i] + s.bricks[i + 1..]
                  && r.score == s.score + BRICK_POINTS
                  && (r.ball.dy == -q.dy || r.ball.dy == -q.dy * BRICK_SPEEDUP))
  {
    var t := Prepared(s, input);
    var u := t.(ball := PaddleBounce(t.ball, t.paddle));
    assert Step(s, input) == Bounces(t);
    assert u.ball.rect == t.ball.rect && u.bricks == s.bricks;
  }

  /**
    A frame in which the ball reaches the bottom: exactly one life is lost and
    the score kept. With lives left, paddle, ball and the full 48-brick field
    are rebuilt and play goes on; otherwise play stops with bricks and ball as
    they were. Either way neither the paddle nor any brick is hit that frame.
   */
  lemma {:induction false} BottomOutFrame(s: State, input: Input)
    requires s.active && BottomsOut(s)
    ensures var r := Step(s, input);
            && r.lives == s.lives - 1
            && r.score == s.score
            && (r.lives > 0 ==>
                  && r.active
                  && r.bricks == Field() && |r.bricks| == 48
                  && r.paddle == PaddleMotion.Initial()
                  && r.ball.rect == Rect(400, 300, BALL_SIZE, BALL_SIZE))
            && (r.lives <= 0 ==>
                  && !r.active
                  && r.bricks == s.bricks
                  && r.ball == Prepared(s, input).ball)
  {
    FieldLayout();
  }

  /**
    A frame with play stopped: without SPACE nothing happens; SPACE after a
    lost game or a cleared field builds a fresh game (score 0, three lives,
    full field) and starts it; SPACE otherwise resumes with score and lives kept.
   */
  lemma {:induction false} IdleFrames(s: State, input: Input)
    requires !s.active
    ensures !input.space ==> Step(s, input) == s
    ensures input.space && (s.lives <= 0 || |s.bricks| == 0) ==>
      var r := Step(s, input);
      r.active && r.score == 0 && r.lives == START_LIVES && r.bricks == Field()
    ensures input.space && s.lives > 0 && |s.bricks| > 0 ==>
      Step(s, input) == s.(active := true)
  {
  }

  /**
    Game over and restart: with one life left, a ball that reaches the bottom
    stops play with no lives; the next SPACE starts a brand-new game.
   */
  lemma {:induction false} GameOverThenRestart(s: State, drop: Input, press: Input)
    requires s.active && s.lives == 1 && BottomsOut(s)
    requires press.space
    ensures var over := Step(s, drop);
            && !over.active && over.lives == 0 && over.score == s.score
            && var again := Step(over, press);
               again.active && again.score == 0 && again.lives == START_LIVES && |again.bricks| == 48
  {
    BottomOutFrame(s, drop);
    var over := Step(s, drop);
    IdleFrames(over, press);
    FieldLayout();
  }

  /** The boost inside one brick-breaking frame, in terms of the score before it. */
  lemma {:induction false} FrameBoost(p: State, last: Input, n: nat)
    requires Inv(p) && BreaksBrick(p, last)
    requires p.score == BRICK_POINTS * n
    ensures var t := Prepared(p, last);
            var q := PaddleBounce(t.ball, t.paddle);
            (Step(p, last).ball.dx == q.dx * BRICK_SPEEDUP <==> (n + 1) % 5 == 0)
  {
    var t := Prepared(p, last);
    var u := t.(ball := PaddleBounce(t.ball, t.paddle));
    PreparedInv(p, last);
    assert u.ball.dx != 0.0;
    assert Step(p, last) == Bounces(t);
    BoostEveryFifthBrick(u, n);
  }

  /**
    The boost along a run of a new game: when a frame breaks a brick, the
    horizontal speed it leaves the paddle with is multiplied by 1.1 exactly
    when the bricks broken since the game began, this one included, number a
    multiple of five. Any state with score 0 that satisfies Inv may stand
    for the new game.
   */
  lemma {:induction false} BoostOnEveryFifthBrick(s: State, before: seq<Input>, last: Input)
    requires Inv(s) && s.score == 0
    requires !Restarted(s, before + [last])
    requires BreaksBrick(Run(s, before), last)
    ensures var t := Prepared(Run(s, before), last);
            var q := PaddleBounce(t.ball, t.paddle);
            (Run(s, before + [last]).ball.dx == q.dx * BRICK_SPEEDUP <==>
             Broken(s, before + [last]) % 5 == 0)
  {
    var inputs := before + [last];
    var p := Run(s, before);
    var n := Broken(s, before);
    var t := Prepared(p, last);
    var q := PaddleBounce(t.ball, t.paddle);
    assert Run(s, inputs) == Step(p, last) && Broken(s, inputs) == n + 1 by {
      assert inputs[..|inputs| - 1] == before;
    }
    assert Step(p, last).ball.dx == q.dx * BRICK_SPEEDUP <==> (n + 1) % 5 == 0 by {
      ScoreCountsBricks(s, before);
      RunPreservesInv(s, before);
      FrameBoost(p, last, n);
    }
  }
}
