/** Integer division and remainder as Kotlin and Java compute them on `Int`. */
module KotlinInt {

  function Abs(a: int): int
  {
    if a < 0 then -a else a
  }

  /** `a / b`: the quotient truncated toward zero. */
  function Div(a: int, b: int): int
    requires b != 0
  {
    if a >= 0 then (if b > 0 then a / b else -(a / -b))
    else (if b > 0 then -((-a) / b) else (-a) / (-b))
  }

  /** `a % b`: the remainder that goes with `Div`, of the sign of `a`. */
  function Rem(a: int, b: int): int
    requires b != 0
  {
    a - Div(a, b) * b
  }

  /**
    The remainder is smaller than the divisor and takes the dividend's sign;
    on non-negative operands both operators agree with Dafny's.
   */
  lemma DivRemProperties(a: int, b: int)
    requires b != 0
    ensures a >= 0 ==> 0 <= Rem(a, b) < Abs(b)
    ensures a < 0 ==> -Abs(b) < Rem(a, b) <= 0
    ensures a >= 0 && b > 0 ==> Div(a, b) == a / b && Rem(a, b) == a % b
  {
    if a >= 0 && b < 0 {
      assert a == (a / -b) * -b + a % -b;
    } else if a < 0 && b > 0 {
      assert -a == ((-a) / b) * b + (-a) % b;
    } else if a < 0 && b < 0 {
      assert -a == ((-a) / (-b)) * (-b) + (-a) % (-b);
    }
  }

  /** A negative dividend truncates toward zero: its quotient and remainder mirror those of its magnitude. */
  lemma TruncationOnNegatives(n: int, d: int)
    requires n < 0 && d > 0
    ensures Div(n, d) == -Div(-n, d) && Rem(n, d) == -Rem(-n, d)
  {
  }

  lemma MultipleBounds(k: int, b: int)
    requires b > 0
    ensures k >= 1 ==> k * b >= b
    ensures k <= -1 ==> k * b <= -b
  {
  }

  /** The only multiple of `b` strictly between `-b` and `b` is zero. */
  lemma SmallMultipleIsZero(k: int, b: int)
    requires b > 0 && -b < k * b < b
    ensures k == 0
  {
    MultipleBounds(k, b);
  }

  /** Dividing `x * b + r` by `b`, with `r` in 0..b-1, gives back `x` and `r`. */
  lemma DivOfMultiplePlusRest(x: int, r: int, b: int)
    requires b > 0 && x >= 0 && 0 <= r < b
    ensures Div(x * b + r, b) == x && Rem(x * b + r, b) == r
  {
    var a := x * b + r;
    var q, m := a / b, a % b;
    assert a == q * b + m;
    assert (x - q) * b == m - r;
    SmallMultipleIsZero(x - q, b);
    assert a >= 0;
    DivRemProperties(a, b);
  }
}
