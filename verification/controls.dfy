/**
 The two keyboard listeners `startGame` registers. Both only ever write the
 player's vertical speed; the event itself is reduced to its key code.
 */
module Controls {

  datatype KeyEvent = KeyDown(code: string) | KeyUp

  /** The vertical speeds the listeners can produce. */
  predicate ValidSpeedY(s: int)
  {
    s == -3 || s == 0 || s == 3
  }

  /** The new `player.speedY` after one key event: keydown "ArrowUp" sets -3,
      keydown "ArrowDown" sets 3, any other keydown leaves it as it was, and
      every keyup (whatever the key) sets 0. */
  function OnKey(speedY: int, e: KeyEvent): (s: int)
    ensures e.KeyUp? ==> s == 0
    ensures e == KeyDown("ArrowUp") ==> s == -3
    ensures e == KeyDown("ArrowDown") ==> s == 3
    ensures e.KeyDown? && e.code != "ArrowUp" && e.code != "ArrowDown" ==> s == speedY
  {
    match e
    case KeyUp => 0
    case KeyDown(code) =>
      if code == "ArrowUp" then -3
      else if code == "ArrowDown" then 3
      else speedY
  }

  /** The speed after a whole sequence of key events, oldest first: either
      the starting speed, kept by keydowns of other keys, or one of the
      values the listeners write. */
  function OnKeys(speedY: int, es: seq<KeyEvent>): (s: int)
    ensures s == speedY || ValidSpeedY(s)
    decreases |es|
  {
    if |es| == 0 then speedY else OnKeys(OnKey(speedY, es[0]), es[1..])
  }

  /** From any speed in {-3, 0, 3} (the constructor's 0 among them), no
      sequence of key events can take the player's vertical speed outside
      that set. */
  lemma OnKeysStaysValid(speedY: int, es: seq<KeyEvent>)
    requires ValidSpeedY(speedY)
    ensures ValidSpeedY(OnKeys(speedY, es))
  {
  }

  /** The last event decides: after a keyup the speed is 0 whatever came
      before. */
  lemma {:induction false} OnKeysEndingInKeyUp(speedY: int, es: seq<KeyEvent>)
    requires |es| > 0 && es[|es| - 1] == KeyUp
    ensures OnKeys(speedY, es) == 0
    decreases |es|
  {
    if |es| > 1 {
      assert es[1..][|es[1..]| - 1] == KeyUp;
      OnKeysEndingInKeyUp(OnKey(speedY, es[0]), es[1..]);
    }
  }
}
