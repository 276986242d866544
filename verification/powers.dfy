/** `Math.pow` with a natural exponent, and the sign facts about squares
    that the loss and the tanh derivative rely on. */
module Powers {

  /** `Math.pow(x, n)` for a natural exponent: x multiplied by itself n times. */
  function Pow(x: real, n: nat): real {
    if n == 0 then 1.0 else x * Pow(x, n - 1)
  }

  /** A square is never negative, and only zero squares to zero. */
  lemma SquareSign(x: real)
    ensures 0.0 <= Pow(x, 2)
    ensures Pow(x, 2) == 0.0 <==> x == 0.0
  {
    assert Pow(x, 1) == x;
    assert Pow(x, 2) == x * Pow(x, 1);
    if x < 0.0 {
      MulNegNeg(x, Pow(x, 1));
    } else if 0.0 < x {
      MulPosPos(x, Pow(x, 1));
    }
  }

  lemma MulPosPos(x: real, y: real)
    requires 0.0 < x && 0.0 < y
    ensures 0.0 < x * y
  {
  }

  lemma MulNegNeg(x: real, y: real)
    requires x < 0.0 && y < 0.0
    ensures 0.0 < x * y
  {
  }
}
