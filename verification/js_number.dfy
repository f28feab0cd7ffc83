/**
 Integer arithmetic as JavaScript performs it on the small whole numbers the
 game uses. The only operator whose meaning differs from Dafny's is `%`:
 JavaScript truncates the quotient toward zero, so the remainder takes the
 sign of the dividend, while Dafny's `%` is Euclidean (never negative).
 */
module JsNumber {

  function Abs(n: int): int
  {
    if n < 0 then -n else n
  }

  /** The quotient of `a / b` truncated toward zero (`Math.trunc(a / b)`). */
  function JsQuot(a: int, b: int): int
    requires b != 0
  {
    var q := Abs(a) / Abs(b);
    if (a < 0) != (b < 0) then -q else q
  }

  /** JavaScript's `a % b` on integers: what is left of `a` after removing the
      truncated quotient; it has the sign of `a` and is smaller than `b` in
      magnitude. */
  function JsRem(a: int, b: int): (r: int)
    requires b != 0
    ensures a == JsQuot(a, b) * b + r
    ensures a >= 0 ==> 0 <= r < Abs(b)
    ensures a <= 0 ==> -Abs(b) < r <= 0
  {
    if a >= 0 then a % Abs(b) else -((-a) % Abs(b))
  }

  /** A multiple of a positive `m` strictly between `-m` and `m` is zero. */
  lemma SmallMultipleIsZero(d: int, m: int)
    requires m > 0
    requires -m < d * m < m
    ensures d == 0
  {
  }

  /** For a non-positive dividend and a positive divisor, JavaScript's remainder
      is the one value in `(-m, 0]` that differs from `x` by a multiple of `m`. */
  lemma {:induction false} JsRemUnique(x: int, k: int, r: int, m: int)
    requires m > 0 && x <= 0
    requires x == k * m + r
    requires -m < r <= 0
    ensures JsRem(x, m) == r
  {
    var q := JsQuot(x, m);
    var j := JsRem(x, m);
    assert x == q * m + j;
    assert (k - q) * m == j - r;
    SmallMultipleIsZero(k - q, m);
  }

  /** Taking the remainder first and subtracting afterwards gives the same
      result as subtracting first, as long as everything stays non-positive:
      this is what keeps the repeatedly wrapped background position in step
      with the distance scrolled. */
  lemma {:induction false} JsRemShift(a: int, c: int, m: int)
    requires m > 0 && a <= 0 && c <= 0
    ensures JsRem(JsRem(a, m) + c, m) == JsRem(a + c, m)
  {
    var r1 := JsRem(a, m);
    var q1 := JsQuot(a, m);
    var r2 := JsRem(r1 + c, m);
    var q2 := JsQuot(r1 + c, m);
    assert a + c == (q1 + q2) * m + r2;
    JsRemUnique(a + c, q1 + q2, r2, m);
  }

  /** The truncated remainder of a non-positive number relates to Dafny's
      Euclidean remainder of its negation by a sign flip. */
  lemma JsRemOfNegation(n: int, m: int)
    requires m > 0 && n >= 0
    ensures JsRem(-n, m) == -(n % m)
  {
  }
}
