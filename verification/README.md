# Breakout game rules in Dafny

This project models the rule logic of a Breakout game (`game.py`) as a
deterministic per-frame step over an explicit game state. The state holds the
score, the lives, the active flag, the paddle rectangle, the ball and its
velocity, and the brick list. The step covers these rules:

- the brick field built at every level reset: 6 rows by 8 columns of 60×20 bricks;
- paddle motion under the arrow keys, in 5-pixel steps, guarded at both screen edges;
- ball motion, wall reflection and paddle reflection with its 2 % speed-up;
- the brick hit: the first overlapping brick in list order is removed, `dy` is reversed, 10 points are added, and a 10 % speed-up applies when the score reaches a multiple of 50;
- losing a life, game over, winning by clearing the field, and SPACE to resume or restart.

Modules:

- `Geometry`: rectangles and the overlap test.
- `Seqs`: `list.remove`.
- `Bricks`: field construction and the first-hit search.
- `PaddleMotion`: the paddle.
- `BallPhysics`: ball motion and reflections.
- `Game`: the state, the frame step, the invariant and the run-level lemmas.

Assumptions about code outside this model:

- The graphics library's `colliderect` is taken to be half-open axis-aligned overlap: `a.x < b.x + b.w`, `b.x < a.x + a.w`, and the same on y.
- Assigning a real-valued coordinate to a rectangle is taken to truncate toward zero (`BallPhysics.Trunc`).
- The random serve direction, `random.choice((1, -1))`, is a per-frame input: `Game.Serve`.
- The keys held in a frame are an input too: `Game.Input`.

Two behaviours of the code are worth knowing:

- Every lost life rebuilds the whole 48-brick field but keeps the score. So the score is not 10 times the number of bricks missing from the field. `Game.ScoreCountsBricks` states what holds instead: the score is 10 points per brick broken since the last fresh game.
- The paddle reflection negates `dy` rather than forcing the ball upward. A ball that is already rising when it overlaps the paddle is therefore sent down (`BallPhysics.RisingBallSentDown`). The model keeps the code's behaviour.

A new game starts paused, because the constructor leaves the active flag false. Its first SPACE frame resumes it rather than building another game.

`Bricks.Row` and `Bricks.Rows` follow the two nested construction loops. The rest of the model uses the closed form `Bricks.Field`, and `Bricks.FieldIsLoops` shows the two are equal.

The paddle bound holds only because the paddle starts at x = 350, a multiple of the 5-pixel step. The edge guards alone do not keep it on screen (`PaddleMotion.GuardAloneInsufficient`).

## Model

| member | source | states |
|---|---|---|
| Bricks.Row | game.py:84-91 | one row of the inner loop holds n bricks, brick j at x = 70·j + 35 in that row's colour |
| Bricks.Rows | game.py:83-91 | after m rows the list holds 8·m bricks, and brick k is the one at row k / 8, column k % 8 (row-major order) |
| Bricks.FieldIsLoops | game.py:81-91 | the nested construction loops build exactly the closed-form field (brick k at row k / 8, column k % 8) |
| Bricks.FieldLayout | game.py:81-91 | the reset field has exactly 48 bricks; brick k is 60×20 at (70·(k % 8) + 35, 25·(k / 8) + 50); all are on screen and no two overlap |
| Bricks.FieldRemaining | game.py:81-91 | the reset field is a valid live list: every brick is the field brick at the slot read back from its position, and slots strictly increase |
| Bricks.RemainingDelete | game.py:197 | deleting one brick from a valid live list leaves a valid live list: field bricks, field order, none twice |
| Bricks.RemainingLayout | game.py:81-91 | a valid live list has at most 48 bricks, all on screen, and no two overlap |
| Bricks.FirstHit | game.py:195-196 | the scan returns the first brick in list order that the ball overlaps; it returns none only when the ball overlaps no brick |
| Bricks.RemoveHit | game.py:195-197 | removing the first-hit brick by value deletes exactly its index, because an equal brick earlier in the list would have been hit first |
| Seqs.RemoveFirst | game.py:197 | `list.remove` on a list holding the value shortens it by exactly one |
| Seqs.RemoveFirstAt | game.py:197 | when no earlier element equals the value, `list.remove` deletes exactly the given index and keeps the order of the rest |
| PaddleMotion.Move | game.py:160-163 | one frame moves the paddle by −5, 0 or +5 only. It moves left exactly when LEFT alone is held and the left edge is right of 0, and right exactly when RIGHT alone is held and the right edge is left of 800; both keys away from the edges cancel out, and both keys at the left edge move it right |
| PaddleMotion.InitialValid | game.py:63-68 | the reset paddle is at x = 350, on the 5-pixel grid and on screen |
| PaddleMotion.MovePreservesValid | game.py:160-163 | one frame of motion keeps a paddle that is on the grid and on screen in that state |
| PaddleMotion.StaysOnScreen | game.py:160-163 | from the reset position, after any sequence of key frames, 0 ≤ left and right ≤ 800 |
| PaddleMotion.GuardAloneInsufficient | game.py:160-161 | a paddle off the 5-pixel grid at x = 3 moves to x = −2, so the bound depends on the start position |
| BallPhysics.Trunc | game.py:166-167 | the assumed conversion to integer coordinates stays within one unit of the real value and rounds toward zero |
| BallPhysics.Move | game.py:166-167 | each coordinate moves by its velocity component to within one pixel; size and velocity are unchanged |
| BallPhysics.Walls | game.py:170-175 | a side contact negates dx and a top contact negates dy; neither changes either magnitude or the position |
| BallPhysics.PaddleBounce | game.py:188-192 | on overlap dy is negated and both components are scaled by 1.02, so speed never drops; without overlap the ball is unchanged |
| BallPhysics.RisingBallSentDown | game.py:188-189 | a ball rising into the paddle's side leaves the collision moving down |
| Game.ResetObjects | game.py:61-91 | a reset keeps score, lives and the active flag; it rebuilds the paddle, the full field and a centred ball served upward at speed 3 |
| Game.NewGame | game.py:53-59 | a new game has score 0, three lives, is paused and has 48 bricks |
| Game.BrickStep | game.py:195-205 | no overlap leaves everything unchanged. On a hit, exactly the first overlapped brick goes and the rest keep their order; score rises by 10 and dy is reversed; both components are scaled by 1.1 exactly when the new score is a multiple of 50 |
| Game.LoseLife | game.py:178-185 | a lost life costs exactly one life and keeps the score; with lives left the objects are reset, otherwise play stops and nothing else changes |
| Game.Prepared | game.py:159-175 | the start of an active frame moves only the paddle (at most 5 pixels, same row and width) and the ball (same size, same speed on each axis, possibly reflected by a wall); score, lives, play flag and bricks are untouched, and the moved ball is at the bottom exactly when the frame loses a life |
| Game.Bounces | game.py:187-224 | after the paddle and brick collisions, lives and paddle are unchanged; the score either stays with the bricks untouched or rises by 10 with exactly one brick gone; play continues exactly when it was on and bricks remain |
| Game.ActiveFrame | game.py:157-224 | a frame in play that bottoms out costs one life and no points; any other frame keeps the lives and adds 0 or 10 points |
| Game.IdleFrame | game.py:237-241 | while stopped: no SPACE changes nothing; SPACE after a loss or a cleared field starts a fresh game of 48 bricks, score 0 and three lives; SPACE otherwise resumes with score, lives and bricks kept |
| Game.Step | game.py:157-241 | an idle frame without SPACE changes nothing; an active frame adds 0 or 10 points and costs at most one life |
| Game.StepScore | game.py:199-240 | a frame resets the score to 0 when it starts a new game, adds 10 when it breaks a brick, and otherwise leaves it alone |
| Game.NewGameInv | game.py:53-59 | a new game, paused or started, satisfies the game invariant |
| Game.StepPreservesInv | game.py:157-241 | every frame preserves the invariant: score a non-negative multiple of 10, 0 ≤ lives ≤ 3, active play has a life and a brick, valid paddle, speed at least 3 on both axes, live bricks are field bricks in field order with none twice |
| Game.RunPreservesInv | game.py:151-244 | any sequence of frames preserves the invariant |
| Game.Reachable | game.py:151-244 | every state reachable from a new game has the paddle on screen, a non-negative multiple of 10 as score, 0 to 3 lives, and at most 48 bricks, all on screen and pairwise non-overlapping |
| Game.ScoreCountsBricks | game.py:179-240 | over any run, the score is 10 per brick broken since the last fresh game, plus the starting score if no fresh game began |
| Game.BoostEveryFifthBrick | game.py:199-204 | with 10·n points, a brick hit scales dx by 1.1 exactly when n + 1 is a multiple of 5, and otherwise leaves dx alone |
| Game.BoostOnEveryFifthBrick | game.py:199-204 | along any run from a score-0 start with no restart, a brick-breaking frame boosts dx exactly when the bricks broken so far number a multiple of five |
| Game.BrickFrame | game.py:187-224 | a frame where the ball stays in removes at most one brick, the first overlapped in list order, keeping the rest in order. Score +10 and dy reversed on a hit, nothing otherwise; lives kept; play stops exactly when the field is empty |
| Game.BottomOutFrame | game.py:178-185 | a bottom-out costs exactly one life with the score kept. With lives left it rebuilds the 48-brick field, paddle and ball and play continues; otherwise play stops with bricks and ball untouched |
| Game.IdleFrames | game.py:237-241 | while stopped: no SPACE changes nothing; SPACE after a loss or a cleared field starts a fresh game (score 0, three lives, full field); SPACE otherwise resumes with score and lives kept |
| Game.GameOverThenRestart | game.py:178-241 | with one life left a bottom-out stops play with 0 lives, and the next SPACE starts a brand-new game with score 0 |

## Left out

- `show_menu` and `show_instructions` (game.py:93-145): screen-drawing and event-polling loops with no game rules.
- Drawing, fonts, `display.flip`, `clock.tick`, window setup and the QUIT event (process exit): presentation and I/O.
- Sound hooks: always `None` (game.py:39-41), so they do nothing.
- The `show_instructions` field of the game state (game.py:58): it is never read.
- The `ball_speed` field (game.py:56): it is never reassigned, so it is the constant `Game.BALL_SPEED`.
- Floating-point velocities: they are exact reals. The 1.02 and 1.1 factors are not rounded as IEEE doubles are, so long runs can differ from the game in the last bits.
- The library's conversion of real coordinates to integers: it is assumed to truncate (`BallPhysics.Trunc`), since the library's code is not part of this model. The same holds for `colliderect` (`Geometry.Overlaps`).
