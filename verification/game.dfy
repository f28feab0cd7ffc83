/**
 The `Game` class as a state machine over immutable states. One `Tick` is one
 call of `updateGame`: background, then player, then `updateObstacles` (frame
 count, schedule and movement, spawn and score), then `checkGameOver`. The
 animation-frame scheduler is reduced to the `status` field: a Running game
 ticks on every frame, an Over game has had its frame cancelled and never
 ticks again. Canvas width and height are parameters, and the random spawn
 height is carried by the frame event that triggers the tick.
 */
module GameLoop {
  import opened Geometry
  import opened Entities
  import opened Controls

  datatype Status = Running | Over

  datatype Game = Game(
    background: GameObj,
    player: GameObj,
    obstacles: seq<GameObj>,
    frames: nat,
    score: nat,
    status: Status)

  /** Something that happens between two states: a key event delivered by a
      listener, or an animation frame, with the value `Math.floor(Math.random()
      * 500)` would produce on that frame. */
  datatype Event = Key(key: KeyEvent) | Frame(spawnY: int)

  /** The state `startGame` builds: the background at the origin, the player
      at (30, 300) sized 75 by 104 and at rest, no obstacles, no frames, no
      score. `game.start()` then runs the first tick.
      In the page the first tick runs before the key listeners are
      registered; a session in this model may also begin with key events,
      which only allows more behaviours than the page has. */
  function NewGame(canvasWidth: int, canvasHeight: int): (g: Game)
    ensures g.status == Running && g.frames == 0 && g.score == 0 && g.obstacles == []
    ensures g.player.Left() == 30 && g.player.Right() == 105
    ensures g.player.Top() == 300 && g.player.Bottom() == 404
    ensures g.player.speedX == 0 && g.player.speedY == 0
    ensures g.background == InitialBackground(canvasWidth, canvasHeight)
  {
    Game(InitialBackground(canvasWidth, canvasHeight), GameObj(30, 300, 75, 104, 0, 0),
         [], 0, 0, Running)
  }

  /** The loop of `updateObstacles` over the obstacles present before this
      tick's spawn, in order: each gets its speed from the schedule at frame
      `f`, then moves. */
  function AdvanceAll(obstacles: seq<GameObj>, f: int): (r: seq<GameObj>)
    ensures |r| == |obstacles|
    ensures forall i :: 0 <= i < |r| ==> r[i] == AdvanceObstacle(obstacles[i], f)
  {
    seq(|obstacles|, i requires 0 <= i < |obstacles| => AdvanceObstacle(obstacles[i], f))
  }

  /** `updateObstacles`: count the frame, advance the existing obstacles, and
      on every 120th frame append one new obstacle at height `spawnY` and
      bump the score. Existing obstacles keep their places; none is removed. */
  function UpdateObstacles(g: Game, spawnY: int): (h: Game)
    ensures h.frames == g.frames + 1
    ensures h.frames % 120 == 0 ==>
              h.obstacles == AdvanceAll(g.obstacles, h.frames) + [Spawn(spawnY)] &&
              h.score == g.score + 1
    ensures h.frames % 120 != 0 ==>
              h.obstacles == AdvanceAll(g.obstacles, h.frames) && h.score == g.score
    ensures h.background == g.background && h.player == g.player && h.status == g.status
  {
    var f := g.frames + 1;
    var moved := AdvanceAll(g.obstacles, f);
    if f % 120 == 0 then
      g.(frames := f, obstacles := moved + [Spawn(spawnY)], score := g.score + 1)
    else
      g.(frames := f, obstacles := moved)
  }

  /** `obstacles.some(o => player.crashWith(o))`, scanning from the front. */
  function AnyCrash(player: GameObj, obstacles: seq<GameObj>): (crashed: bool)
    ensures crashed <==> exists i :: 0 <= i < |obstacles| && CrashWith(player, obstacles[i])
    decreases |obstacles|
  {
    if |obstacles| == 0 then false
    else CrashWith(player, obstacles[0]) || AnyCrash(player, obstacles[1..])
  }

  /** One run of `updateGame` on a running game. The game is Over afterwards
      exactly when the moved player touches some obstacle after this tick's
      movement and spawn; otherwise it keeps running. */
  function Tick(g: Game, canvasWidth: int, canvasHeight: int, spawnY: int): (r: Game)
    requires g.status == Running
    requires canvasWidth > 0
    requires 0 <= spawnY < 500
    ensures r.frames == g.frames + 1
    ensures r.background == BackgroundUpdate(g.background, canvasWidth)
    ensures r.player == PlayerUpdate(g.player, canvasHeight)
    ensures |r.obstacles| == |g.obstacles| + (if r.frames % 120 == 0 then 1 else 0)
    ensures forall i :: 0 <= i < |g.obstacles| ==>
              r.obstacles[i] == AdvanceObstacle(g.obstacles[i], r.frames)
    ensures r.frames % 120 == 0 ==> r.obstacles[|g.obstacles|] == Spawn(spawnY)
    ensures r.score == g.score + (if r.frames % 120 == 0 then 1 else 0)
    ensures r.status == Over <==>
              exists i :: 0 <= i < |r.obstacles| && CrashWith(r.player, r.obstacles[i])
  {
    var moved := g.(background := BackgroundUpdate(g.background, canvasWidth),
                    player := PlayerUpdate(g.player, canvasHeight));
    var h := UpdateObstacles(moved, spawnY);
    h.(status := if AnyCrash(h.player, h.obstacles) then Over else Running)
  }

  /** The player as the key listeners leave it. */
  function OnKeyEvent(g: Game, k: KeyEvent): (h: Game)
    ensures h.player.speedY == OnKey(g.player.speedY, k)
    ensures h.(player := g.player) == g
    ensures h.player.(speedY := g.player.speedY) == g.player
  {
    g.(player := g.player.(speedY := OnKey(g.player.speedY, k)))
  }

  predicate ValidEvent(e: Event)
  {
    e.Frame? ==> 0 <= e.spawnY < 500
  }

  predicate ValidEvents(es: seq<Event>)
  {
    forall i :: 0 <= i < |es| ==> ValidEvent(es[i])
  }

  /** One event: key events reach the player whatever the status (the
      listeners are never removed); a frame ticks a running game and finds
      an Over game with no frame scheduled, so leaves it alone. */
  function Step(g: Game, e: Event, canvasWidth: int, canvasHeight: int): (h: Game)
    requires canvasWidth > 0 && ValidEvent(e)
    ensures e.Key? ==> h == OnKeyEvent(g, e.key)
    ensures e.Frame? && g.status == Over ==> h == g
    ensures e.Frame? && g.status == Running ==> h == Tick(g, canvasWidth, canvasHeight, e.spawnY)
  {
    match e
    case Key(k) => OnKeyEvent(g, k)
    case Frame(y) => if g.status == Running then Tick(g, canvasWidth, canvasHeight, y) else g
  }

  /** A whole session: the events in the order they arrive. Each frame adds
      at most one to the frame count, nothing ever lowers it, and a game that
      is Over stays Over.
      In the page the first tick runs before the key listeners are
      registered; a run here may also start with key events, a superset of
      the page's behaviours that the invariants below cover as well. */
  function Run(g: Game, es: seq<Event>, canvasWidth: int, canvasHeight: int): (h: Game)
    requires canvasWidth > 0 && ValidEvents(es)
    ensures g.frames <= h.frames <= g.frames + |es|
    ensures g.status == Over ==> h.status == Over && h.frames == g.frames
    decreases |es|
  {
    if |es| == 0 then g
    else Run(Step(g, es[0], canvasWidth, canvasHeight), es[1..], canvasWidth, canvasHeight)
  }

  /** Key events alone, as the events of a session. */
  function AsEvents(ks: seq<KeyEvent>): (es: seq<Event>)
    ensures |es| == |ks| && ValidEvents(es)
    ensures forall i :: 0 <= i < |ks| ==> es[i] == Key(ks[i])
  {
    seq(|ks|, i requires 0 <= i < |ks| => Key(ks[i]))
  }

  /** Between two frames, a burst of key events does to the game exactly
      what the listeners do to the speed: the player's speedY ends where
      `OnKeys` leaves it — 0 after a final keyup — and nothing else moves. */
  lemma {:induction false} RunOfKeys(g: Game, ks: seq<KeyEvent>, canvasWidth: int, canvasHeight: int)
    requires canvasWidth > 0
    ensures Run(g, AsEvents(ks), canvasWidth, canvasHeight) ==
              g.(player := g.player.(speedY := OnKeys(g.player.speedY, ks)))
    ensures |ks| > 0 && ks[|ks| - 1] == KeyUp ==>
              Run(g, AsEvents(ks), canvasWidth, canvasHeight).player.speedY == 0
    decreases |ks|
  {
    if |ks| > 0 {
      var es := AsEvents(ks);
      assert es[1..] == AsEvents(ks[1..]);
      var s := Step(g, es[0], canvasWidth, canvasHeight);
      assert s == g.(player := g.player.(speedY := OnKey(g.player.speedY, ks[0])));
      RunOfKeys(s, ks[1..], canvasWidth, canvasHeight);
      if ks[|ks| - 1] == KeyUp {
        OnKeysEndingInKeyUp(g.player.speedY, ks);
      }
    }
  }

  // ------------------------------------------------------------- invariant

  /** The obstacle appended by the tick that produced this state. */
  predicate JustSpawned(g: Game)
  {
    g.frames % 120 == 0 && |g.obstacles| > 0
  }

  /** What every reachable state satisfies. */
  predicate Inv(g: Game, canvasWidth: int, canvasHeight: int)
    requires canvasWidth > 0
  {
    // the player never moves sideways and only the listeners touch speedY
    && g.player.x == 30 && g.player.width == 75 && g.player.height == 104
    && g.player.speedX == 0 && ValidSpeedY(g.player.speedY)
    // the background has scrolled 2 pixels per frame, wrapped by the width
    && g.background == InitialBackground(canvasWidth, canvasHeight).(x := g.background.x)
    && g.background.x == -((2 * g.frames) % canvasWidth)
    // one obstacle, and one point, per 120 frames
    && g.score == |g.obstacles| == g.frames / 120
    // every obstacle has a spawn height in [0, 500), size 80 by 109 and no vertical speed
    && (forall i :: 0 <= i < |g.obstacles| ==>
          0 <= g.obstacles[i].y < 500 && g.obstacles[i].width == 80 &&
          g.obstacles[i].height == 109 && g.obstacles[i].speedY == 0)
    // all but a just-spawned obstacle move at the settled speed for this frame
    && (forall i :: 0 <= i < |g.obstacles| ==>
          g.obstacles[i].speedX ==
            (if JustSpawned(g) && i == |g.obstacles| - 1 then -6 else SettledSpeed(g.frames)))
  }

  lemma NewGameInv(canvasWidth: int, canvasHeight: int)
    requires canvasWidth > 0
    ensures Inv(NewGame(canvasWidth, canvasHeight), canvasWidth, canvasHeight)
  {
  }

  /** The spawn frames are never the frame just before a schedule boundary,
      so a fresh obstacle's first scheduled speed is always the settled one. */
  lemma SpawnFrameAvoidsBoundaries(f: int)
    requires f >= 1 && f % 120 == 0
    ensures f + 1 != 1500 && f + 1 != 2500
  {
  }

  lemma {:induction false} TickInv(g: Game, canvasWidth: int, canvasHeight: int, spawnY: int)
    requires canvasWidth > 0 && 0 <= spawnY < 500
    requires g.status == Running
    requires Inv(g, canvasWidth, canvasHeight)
    ensures Inv(Tick(g, canvasWidth, canvasHeight, spawnY), canvasWidth, canvasHeight)
  {
    var r := Tick(g, canvasWidth, canvasHeight, spawnY);
    var f := r.frames;
    BackgroundScrollStep(g.background, canvasWidth, g.frames);
    assert r.score == |r.obstacles| == f / 120;
    forall i | 0 <= i < |g.obstacles|
      ensures r.obstacles[i].speedX == SettledSpeed(f)
    {
      if JustSpawned(g) && i == |g.obstacles| - 1 {
        SpawnFrameAvoidsBoundaries(g.frames);
        ScheduleFromSpawn(f);
      } else {
        ScheduleFollowsSettled(f);
      }
    }
  }

  lemma {:induction false} StepInv(g: Game, e: Event, canvasWidth: int, canvasHeight: int)
    requires canvasWidth > 0 && ValidEvent(e)
    requires Inv(g, canvasWidth, canvasHeight)
    ensures Inv(Step(g, e, canvasWidth, canvasHeight), canvasWidth, canvasHeight)
  {
    match e
    case Key(k) =>
    case Frame(y) =>
      if g.status == Running {
        TickInv(g, canvasWidth, canvasHeight, y);
      }
  }

  lemma {:induction false} RunInv(g: Game, es: seq<Event>, canvasWidth: int, canvasHeight: int)
    requires canvasWidth > 0 && ValidEvents(es)
    requires Inv(g, canvasWidth, canvasHeight)
    ensures Inv(Run(g, es, canvasWidth, canvasHeight), canvasWidth, canvasHeight)
    decreases |es|
  {
    if |es| > 0 {
      assert ValidEvent(es[0]);
      StepInv(g, es[0], canvasWidth, canvasHeight);
      RunInv(Step(g, es[0], canvasWidth, canvasHeight), es[1..], canvasWidth, canvasHeight);
    }
  }

  /** Whatever keys are pressed and however many frames pass, a session
      started by `startGame` keeps: the player at x = 30 with a vertical
      speed in {-3, 0, 3}; the background inside (-W, 0]; one obstacle and
      one point per 120 frames. */
  lemma SessionFacts(es: seq<Event>, canvasWidth: int, canvasHeight: int)
    requires canvasWidth > 0 && ValidEvents(es)
    ensures var g := Run(NewGame(canvasWidth, canvasHeight), es, canvasWidth, canvasHeight);
      && g.player.x == 30
      && ValidSpeedY(g.player.speedY)
      && -canvasWidth < g.background.x <= 0
      && g.score == |g.obstacles| == g.frames / 120
      && (forall i :: 0 <= i < |g.obstacles| ==> 0 <= g.obstacles[i].y < 500)
  {
    NewGameInv(canvasWidth, canvasHeight);
    RunInv(NewGame(canvasWidth, canvasHeight), es, canvasWidth, canvasHeight);
  }

  /** Over is terminal: once a game is Over, no later event changes anything
      but the player's vertical speed — no frame, score, obstacle or
      position moves again. */
  lemma {:induction false} OverIsTerminal(g: Game, es: seq<Event>, canvasWidth: int, canvasHeight: int)
    requires canvasWidth > 0 && ValidEvents(es)
    requires g.status == Over
    ensures var h := Run(g, es, canvasWidth, canvasHeight);
      h.status == Over && h.(player := g.player) == g &&
      h.player.(speedY := g.player.speedY) == g.player
    decreases |es|
  {
    if |es| > 0 {
      assert ValidEvent(es[0]);
      var s := Step(g, es[0], canvasWidth, canvasHeight);
      OverIsTerminal(s, es[1..], canvasWidth, canvasHeight);
    }
  }

  /** The frame counter counts exactly the ticks: in a running game each
      frame event adds one, and key events add nothing. */
  lemma FramesCountTicks(g: Game, e: Event, canvasWidth: int, canvasHeight: int)
    requires canvasWidth > 0 && ValidEvent(e)
    ensures Step(g, e, canvasWidth, canvasHeight).frames ==
              g.frames + (if e.Frame? && g.status == Running then 1 else 0)
  {
  }
}
