/**
 * Python's `round(x, 2)`: the multiple of 0.01 nearest to `x`, and of two
 * equally near ones the one whose count of hundredths is even. Scores are
 * exact reals here, so a tie is a tie of the real value.
 */
module Rounding {

  /** `n` hundredths. */
  function Hundredths(n: int): real {
    n as real / 100.0
  }

  /** The number of hundredths `round(x, 2)` keeps: nearest to `100 * x`, ties to even. */
  function Round2Index(x: real): (n: int)
    ensures -0.5 <= x * 100.0 - n as real <= 0.5
    ensures x * 100.0 - n as real == 0.5 ==> n % 2 == 0
    ensures x * 100.0 - n as real == -0.5 ==> n % 2 == 0
  {
    var y := x * 100.0;
    var f := y.Floor;
    var frac := y - f as real;
    if frac < 0.5 then f
    else if frac > 0.5 then f + 1
    else if f % 2 == 0 then f
    else f + 1
  }

  /** `round(x, 2)`: a multiple of 0.01 no further than half a hundredth from `x`. */
  function Round2(x: real): (r: real)
    ensures r == Hundredths(Round2Index(x))
    ensures -0.005 <= r - x <= 0.005
  {
    Hundredths(Round2Index(x))
  }

  /** Rounding never reverses the order of two values. */
  lemma Round2Monotone(x: real, y: real)
    requires x <= y
    ensures Round2(x) <= Round2(y)
  {
    var nx := Round2Index(x);
    var ny := Round2Index(y);
    if nx > ny {
      assert false;
    }
  }

  /** A value that already has two decimals is left as it is. */
  lemma Round2OfHundredths(n: int)
    ensures Round2Index(Hundredths(n)) == n
    ensures Round2(Hundredths(n)) == Hundredths(n)
  {
    assert Hundredths(n) * 100.0 == n as real;
  }

  /** Rounding twice is rounding once. */
  lemma Round2Idempotent(x: real)
    ensures Round2(Round2(x)) == Round2(x)
  {
    Round2OfHundredths(Round2Index(x));
  }

  /** A value between two whole numbers rounds to a value between them. */
  lemma Round2Between(x: real, lo: int, hi: int)
    requires lo as real <= x <= hi as real
    ensures lo as real <= Round2(x) <= hi as real
  {
    Round2Monotone(lo as real, x);
    Round2Monotone(x, hi as real);
    Round2OfHundredths(lo * 100);
    Round2OfHundredths(hi * 100);
    assert Hundredths(lo * 100) == lo as real;
    assert Hundredths(hi * 100) == hi as real;
  }
}
