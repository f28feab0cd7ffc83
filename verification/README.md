# Projeto_Game: the game loop as a verified model

The game is a browser side-scroller: the player (a sprite at x = 30) moves up
and down under the arrow keys while a background scrolls left and obstacles
enter from the right at x = 800; the first touch between the player and an
obstacle ends the game. Every quantity in that logic is a whole number of
canvas pixels, so the model works on unbounded integers throughout.

Modules, following the classes of `js/index.js`:

- `JsNumber` (`js_number.dfy`): JavaScript's truncated `%` (`JsRem`), which
  differs from Dafny's Euclidean `%` for negative dividends, and the facts the
  background needs about it.
- `Geometry` (`geometry.dfy`): `GameObj`, the rectangle with position, size and
  speed; its `left/right/top/bottom`; the collision test `crashWith`.
- `Entities` (`entities.dfy`): how each kind of rectangle moves in one tick
  (player clamp-then-move, obstacle horizontal move, background move-and-wrap),
  where an obstacle spawns, and the frame schedule for obstacle speeds.
- `Controls` (`controls.dfy`): the keydown/keyup listeners as a transition on
  the player's vertical speed.
- `GameLoop` (`game.dfy`): `Game` as a state machine with a Running/Over
  status; `Tick` is one call of `updateGame` (background, player,
  `updateObstacles`, `checkGameOver`); `Step` and `Run` interleave key events
  with animation frames; `Inv` is the invariant every reachable state keeps.

Canvas width and height are parameters (width > 0). The random spawn height
`Math.floor(Math.random() * 500)` is the parameter of the frame event that
triggers the tick, restricted to `0 <= y < 500`.

Two consequences of the code that are easy to miss:

- The background's x lives in `(-W, 0]`, not `[0, W)`: it starts at 0, moves
  by -2, and JavaScript's `%` keeps the sign of the dividend. The two copies
  drawn at x and x + W still cover the canvas.
- The player's y is clamped into `[height - 90, H - (height + 110)]` before
  `speedY` is added, so after an update y can lie outside that band by up to
  `|speedY|` (3 pixels).

## Model

| member | source | states |
|---|---|---|
| JsNumber.JsRem | js/index.js:89 | `a % b` with the quotient truncated toward zero: `a == JsQuot(a, b) * b + r`, r has the sign of a and is smaller than b in magnitude |
| JsNumber.JsRemUnique | js/index.js:89 | for x <= 0 and m > 0, `x % m` is the only value in (-m, 0] that differs from x by a multiple of m |
| JsNumber.JsRemShift | js/index.js:87-90 | wrapping first and subtracting afterwards equals subtracting first and wrapping once, while all values stay non-positive |
| Geometry.CrashWith | js/index.js:60-67 | the four strict "separated" tests fail exactly when the closed x-extents and the closed y-extents both overlap; the extents come from `Left/Right/Top/Bottom` on `GameObj`, the getters at js/index.js:47-58 |
| Geometry.CrashWithSymmetric | js/index.js:60-67 | `a.crashWith(b) == b.crashWith(a)` for all rectangles |
| Geometry.CrashWithIffCommonPoint | js/index.js:47-67 | for rectangles with non-negative size, `crashWith` holds exactly when the two closed boxes share a pixel |
| Geometry.TouchingEdgesCrash | js/index.js:60-67 | rectangles that only touch, b abutting a's right edge with overlapping vertical extents or a's bottom edge with overlapping horizontal extents, crash, because separation is tested with strict comparisons |
| Entities.BandClampIsMinMax | js/index.js:32-38 | when the band is non-empty, the two `if`s of the player update are the clamp `min(max(y, lo), hi)` and land inside `[lo, hi]` |
| Entities.PlayerUpdate | js/index.js:29-41 | x moves by exactly speedX; y is clamped to the band first and speedY added after, so the final y is within `[lo + speedY, hi + speedY]` for a non-empty band, is `y + speedY` strictly inside it, and `hi + speedY` for an empty band; size and speeds unchanged |
| Entities.ObstacleUpdate | js/index.js:76-78 | an obstacle's x moves by its speedX and nothing else about it changes |
| Entities.Spawn | js/index.js:153-160 | a new obstacle covers x 800..880 and y..y+109 and moves left at 6 pixels per tick with no vertical speed (the `Obstacle` constructor at 71-74 sets the -6) |
| Entities.ScheduleSpeed | js/index.js:139-148 | the assigned speed is -6 for 0 < f < 1500, -10 for 1500 < f < 2500, -12 for f > 2500, and the previous speed at f <= 0, f = 1500 and f = 2500 |
| Entities.ScheduleFollowsSettled | js/index.js:139-148 | from the speed settled at frame f - 1, the schedule at frame f yields the speed settled at frame f, boundary frames included |
| Entities.ScheduleFromSpawn | js/index.js:140-148 | a spawned obstacle (speed -6) reaches the settled speed on its first tick, unless that tick is frame 1500 or 2500 |
| Entities.SettledSpeedMonotone | js/index.js:140-148 | obstacle speed never slows down as frames pass and is always leftward |
| Entities.AdvanceObstacle | js/index.js:139-150 | per obstacle and tick: speed reassigned from the schedule, then x moves by that speed; y, size and speedY unchanged |
| Entities.BackgroundUpdate | js/index.js:87-90 | the new x differs from `x + speedX` by a whole number of canvas widths and has its sign, so it lies in `(-W, 0]` when `x + speedX <= 0`; nothing else changes |
| Entities.InitialBackground | js/index.js:220-226 | the background starts at the origin, covers the canvas, and scrolls at -2 with no vertical speed (speed set at 84) |
| Entities.BackgroundScrollStep | js/index.js:84-90 | from x = `-(2n mod W)` at speed -2, one update gives `-(2(n+1) mod W)`, inside `(-W, 0]` |
| Controls.OnKey | js/index.js:233-243 | keydown ArrowUp sets -3, keydown ArrowDown sets 3, other keydowns keep the speed, any keyup sets 0 |
| Controls.OnKeys | js/index.js:233-243 | after any sequence of key events the speed is either the starting speed (kept by other keydowns) or one of {-3, 0, 3} |
| Controls.OnKeysStaysValid | js/index.js:233-243 | from a speed in {-3, 0, 3}, any sequence of key events keeps it in {-3, 0, 3} |
| Controls.OnKeysEndingInKeyUp | js/index.js:241-243 | after a sequence ending in a keyup the speed is 0, whatever came before |
| GameLoop.AdvanceAll | js/index.js:139-151 | the loop over obstacles keeps their number and order and advances each one by the schedule at the current frame |
| GameLoop.UpdateObstacles | js/index.js:136-166 | frames rises by one; existing obstacles are advanced in place; an obstacle is appended at the end and the score rises by one exactly when the new frame count is a multiple of 120 |
| GameLoop.AnyCrash | js/index.js:168-171 | `some` over the obstacles is true exactly when the player crashes with at least one of them |
| GameLoop.Tick | js/index.js:118-134 | one frame: background then player updated, one more frame counted, obstacles advanced and spawned as above, and the game Over exactly when the updated player crashes with some obstacle after this tick's movement and spawn |
| GameLoop.OnKeyEvent | js/index.js:233-243 | a key event changes only the player's speedY, to the listeners' value |
| GameLoop.NewGame | js/index.js:220-229 | the session starts Running with no frames, score or obstacles, the player covering (30, 300)..(105, 404) at rest, and the initial background (fields set at 104-112) |
| GameLoop.Step | js/index.js:131-181 | a frame on a Running game is exactly one `Tick`; a frame on an Over game, whose next frame was cancelled, leaves the state unchanged; a key event, whatever the status, is exactly `OnKeyEvent`, changing only the player's speedY |
| GameLoop.Run | js/index.js:114-134 | over a sequence of events the frame count never falls and rises by at most one per event; an Over game stays Over with its frame count frozen |
| GameLoop.RunOfKeys | js/index.js:233-243 | a run of key events alone changes only the player's speedY, to the speed the listeners leave after the whole sequence, which is 0 when the last event is a keyup |
| GameLoop.NewGameInv | js/index.js:220-229 | the state `startGame` builds satisfies the session invariant |
| GameLoop.SpawnFrameAvoidsBoundaries | js/index.js:140-153 | a spawn frame is never the frame just before 1500 or 2500, so the kept-speed boundary never catches a fresh obstacle |
| GameLoop.TickInv | js/index.js:118-165 | a tick keeps the invariant: player at x = 30, background at `-(2·frames mod W)`, `score == number of obstacles == frames / 120`, every obstacle with y in `[0, 500)`, size 80 by 109 and speedY 0, and all but a just-spawned obstacle at the settled speed |
| GameLoop.StepInv | js/index.js:233-243 | key events and frames (ticking or ignored) keep the invariant |
| GameLoop.RunInv | js/index.js:118-181 | any interleaving of key events and frames keeps the invariant |
| GameLoop.SessionFacts | js/index.js:208-243 | in every session the player stays at x = 30 with speedY in {-3, 0, 3}, the background stays in `(-W, 0]`, and `score == number of obstacles == frames / 120` |
| GameLoop.OverIsTerminal | js/index.js:168-181 | once Over, no further event changes the frames, score, obstacles, background or player position; only the player's speedY still follows the keys |
| GameLoop.FramesCountTicks | js/index.js:136-137 | the frame counter rises by exactly one per tick of a running game and by nothing otherwise |

## Left out

- Drawing: every `draw`, the background's two-copy `draw`, `updateScore`'s
  text, the `gameOver` overlay and `clear` only paint the canvas.
- `requestAnimationFrame` and `cancelAnimationFrame`: the frame scheduler is
  modelled as the Running/Over status; a frame event reaching an Over game
  does nothing, which stands for the cancelled frame.
- Audio (`crashSound`, `introSound`) and image loading: browser objects with
  no logic.
- DOM setup in `startGame` and `window.onload` (display toggling, listener
  registration): only the speed each listener computes is kept.
- `Math.random`: the spawn height is an input of each frame event, with
  `0 <= y < 500` as `Math.floor(Math.random() * 500)` guarantees.
- Canvas size: width and height come from the page and are parameters; the
  width must be positive, since `x %= 0` would make the background position
  NaN.
- JavaScript numbers are doubles; the model uses unbounded integers. All
  positions stay far below 2^53 in any session of realistic length, where
  the two agree.
- The image handle of each rectangle is not modelled; it never affects
  movement or collision.
