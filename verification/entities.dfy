/**
 The three kinds of rectangle in the game and how each moves in one tick:
 the player (`GameObj.updatePosition`), an obstacle (`Obstacle`) and the
 scrolling background (`BackgroundImage`); plus the frame schedule that sets
 the obstacles' speed.
 */
module Entities {
  import opened JsNumber
  import opened Geometry

  // ---------------------------------------------------------------- player

  /** Lowest y the clamp lets through: `height - 90`. */
  function BandLow(p: GameObj): int
  {
    p.height - 90
  }

  /** Highest y the clamp lets through: `canvas.height - (height + 110)`. */
  function BandHigh(p: GameObj, canvasHeight: int): int
  {
    canvasHeight - (p.height + 110)
  }

  /** The two `if`s of `updatePosition`, in source order: first raise y to
      `lo` when it is at or below it, then lower it to `hi` when it is at or
      above it. */
  function BandClamp(y: int, lo: int, hi: int): int
  {
    var raised := if y <= lo then lo else y;
    if raised >= hi then hi else raised
  }

  function Min(a: int, b: int): int { if a <= b then a else b }
  function Max(a: int, b: int): int { if a >= b then a else b }

  /** When the band is not empty the two `if`s are the usual clamp
      `min(max(y, lo), hi)`. */
  lemma BandClampIsMinMax(y: int, lo: int, hi: int)
    requires lo <= hi
    ensures BandClamp(y, lo, hi) == Min(Max(y, lo), hi)
    ensures lo <= BandClamp(y, lo, hi) <= hi
  {
  }

  /** `GameObj.updatePosition`: move x by `speedX`; clamp y into the band;
      only then add `speedY`. The final y may therefore leave the band by
      up to `|speedY|`. When the band is empty (`lo > hi`) the second `if`
      wins and y lands on `hi`. */
  function PlayerUpdate(p: GameObj, canvasHeight: int): (q: GameObj)
    ensures q.x == p.x + p.speedX
    ensures q.width == p.width && q.height == p.height
    ensures q.speedX == p.speedX && q.speedY == p.speedY
    ensures q.y - p.speedY <= BandHigh(p, canvasHeight)
    ensures BandLow(p) <= BandHigh(p, canvasHeight) ==>
              BandLow(p) + p.speedY <= q.y <= BandHigh(p, canvasHeight) + p.speedY
    ensures BandLow(p) < p.y < BandHigh(p, canvasHeight) ==> q.y == p.y + p.speedY
    ensures p.y <= BandLow(p) <= BandHigh(p, canvasHeight) ==>
              q.y == BandLow(p) + p.speedY
    ensures p.y >= BandHigh(p, canvasHeight) || BandLow(p) > BandHigh(p, canvasHeight) ==>
              q.y == BandHigh(p, canvasHeight) + p.speedY
  {
    var y := BandClamp(p.y, BandLow(p), BandHigh(p, canvasHeight));
    p.(x := p.x + p.speedX, y := y + p.speedY)
  }

  // -------------------------------------------------------------- obstacle

  /** Where an obstacle enters: x = 800, the given y, 80 by 109, moving left
      at 6 pixels per tick (the `Obstacle` constructor overrides `speedX`). */
  function Spawn(y: int): (o: GameObj)
    ensures o.Left() == 800 && o.Right() == 880
    ensures o.Top() == y && o.Bottom() == y + 109
    ensures o.speedX == -6 && o.speedY == 0
  {
    GameObj(800, y, 80, 109, -6, 0)
  }

  /** `Obstacle.updatePosition`: only x moves, by `speedX`; nothing else of
      the obstacle changes. */
  function ObstacleUpdate(o: GameObj): (r: GameObj)
    ensures r.x == o.x + o.speedX
    ensures r.(x := o.x) == o
  {
    o.(x := o.x + o.speedX)
  }

  /** The speed an obstacle is given at the post-increment frame count `f`.
      The three ranges are open, so at `f <= 0`, `f == 1500` and `f == 2500`
      no `if` fires and the obstacle keeps its previous speed `prev`. */
  function ScheduleSpeed(f: int, prev: int): (s: int)
    ensures 0 < f < 1500 ==> s == -6
    ensures 1500 < f < 2500 ==> s == -10
    ensures f > 2500 ==> s == -12
    ensures f <= 0 || f == 1500 || f == 2500 ==> s == prev
  {
    if 0 < f < 1500 then -6
    else if 1500 < f < 2500 then -10
    else if f > 2500 then -12
    else prev
  }

  /** The speed every obstacle that has seen at least one tick moves at after
      frame `f`: the boundary frames 1500 and 2500 still belong to the slower
      stage, because the schedule keeps the previous speed there. */
  function SettledSpeed(f: int): int
  {
    if f <= 1500 then -6 else if f <= 2500 then -10 else -12
  }

  /** Following the schedule from the settled speed of the previous frame
      lands on the settled speed of this frame: the kept speed at 1500 and
      2500 is the one the boundary frame stands for. */
  lemma ScheduleFollowsSettled(f: int)
    requires f >= 1
    ensures ScheduleSpeed(f, SettledSpeed(f - 1)) == SettledSpeed(f)
  {
  }

  /** A freshly spawned obstacle (speed -6) is brought to the settled speed
      by its first tick, except on the two boundary frames. */
  lemma ScheduleFromSpawn(f: int)
    requires f >= 1 && f != 1500 && f != 2500
    ensures ScheduleSpeed(f, -6) == SettledSpeed(f)
  {
  }

  /** Obstacles only ever get faster (more negative speed) as frames pass. */
  lemma SettledSpeedMonotone(f: int, g: int)
    requires f <= g
    ensures SettledSpeed(g) <= SettledSpeed(f) < 0
  {
  }

  /** One obstacle in one tick of `updateObstacles`: its speed is reassigned
      from the schedule, then it moves. */
  function AdvanceObstacle(o: GameObj, f: int): (r: GameObj)
    ensures r.x == o.x + ScheduleSpeed(f, o.speedX)
    ensures r.speedX == ScheduleSpeed(f, o.speedX)
    ensures r.(x := o.x, speedX := o.speedX) == o
  {
    ObstacleUpdate(o.(speedX := ScheduleSpeed(f, o.speedX)))
  }

  // ------------------------------------------------------------ background

  /** The background as `startGame` builds it: at the origin, the size of the
      canvas, scrolling left 2 pixels per tick. */
  function InitialBackground(canvasWidth: int, canvasHeight: int): (b: GameObj)
    ensures b.Left() == 0 && b.Right() == canvasWidth
    ensures b.Top() == 0 && b.Bottom() == canvasHeight
    ensures b.speedX == -2 && b.speedY == 0
  {
    GameObj(0, 0, canvasWidth, canvasHeight, -2, 0)
  }

  /** `BackgroundImage.updatePosition`: x moves by `speedX` and is then
      reduced with JavaScript's `%` by the canvas width. The result differs
      from the moved x by a whole number of widths, keeps its sign and is
      smaller than the width in magnitude; nothing else changes. */
  function BackgroundUpdate(b: GameObj, canvasWidth: int): (r: GameObj)
    requires canvasWidth > 0
    ensures r.(x := b.x) == b
    ensures b.x + b.speedX == JsQuot(b.x + b.speedX, canvasWidth) * canvasWidth + r.x
    ensures b.x + b.speedX <= 0 ==> -canvasWidth < r.x <= 0
    ensures b.x + b.speedX >= 0 ==> 0 <= r.x < canvasWidth
  {
    b.(x := JsRem(b.x + b.speedX, canvasWidth))
  }

  /** After `n` ticks from x = 0 at speed -2 the background sits at
      `-(2n mod W)`: one step keeps that closed form. */
  lemma {:induction false} BackgroundScrollStep(b: GameObj, canvasWidth: int, n: nat)
    requires canvasWidth > 0
    requires b.speedX == -2
    requires b.x == -((2 * n) % canvasWidth)
    ensures BackgroundUpdate(b, canvasWidth).x == -((2 * (n + 1)) % canvasWidth)
    ensures -canvasWidth < BackgroundUpdate(b, canvasWidth).x <= 0
  {
    JsRemOfNegation(2 * n, canvasWidth);
    JsRemShift(-2 * n, -2, canvasWidth);
    JsRemOfNegation(2 * (n + 1), canvasWidth);
  }
}
