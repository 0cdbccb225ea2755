// Conversion of a ZEC amount given as a float into an integer count of
// zatoshi, rounding half away from zero. Floats are modelled as exact reals
// plus the three non-finite values.

module Amount {
  import opened GoTypes

  /** Zatoshi in one ZEC. */
  const ZatoshiPerZecash: int := 100000000

  /** A float64 input: a finite value (taken exactly), NaN or an infinity. */
  datatype Float64 = Finite(r: real) | NaN | PosInf | NegInf

  /** The error `NewAmount` returns for a non-finite input. */
  const InvalidAmount := Error("invalid bitcoin amount")

  /** Go's conversion of a float to an integer type: truncation toward zero. */
  function Truncate(x: real): (n: int)
    ensures 0.0 <= x ==> n as real <= x < n as real + 1.0
    ensures x < 0.0 ==> n as real - 1.0 < x <= n as real
  {
    if x < 0.0 then -((-x).Floor) else x.Floor
  }

  /**
   * Subtracts 0.5 from a negative value and adds 0.5 otherwise, then truncates.
   * The result is the nearest integer; a tie goes away from zero.
   */
  function Round(f: real): (a: int)
    ensures -0.5 <= a as real - f <= 0.5
    ensures a as real - f == 0.5 ==> f > 0.0
    ensures f - a as real == 0.5 ==> f < 0.0
  {
    if f < 0.0 then Truncate(f - 0.5) else Truncate(f + 0.5)
  }

  /**
   * The zatoshi amount of `f` ZEC. Non-finite inputs give 0 with an error;
   * every finite input succeeds, with no bound against the total supply.
   */
  function NewAmount(f: Float64): (r: Ret<int>)
    ensures r.err.Some? <==> !f.Finite?
    ensures r.err.Some? ==> r.value == 0 && r.err == Some(InvalidAmount)
    ensures f.Finite? ==> r.value == Round(f.r * ZatoshiPerZecash as real)
    ensures f.Finite? ==>
      var exact := f.r * ZatoshiPerZecash as real;
      && -0.5 <= r.value as real - exact <= 0.5
      && (r.value as real - exact == 0.5 ==> f.r > 0.0)
      && (exact - r.value as real == 0.5 ==> f.r < 0.0)
  {
    match f
    case NaN => Ret(0, Some(InvalidAmount))
    case PosInf => Ret(0, Some(InvalidAmount))
    case NegInf => Ret(0, Some(InvalidAmount))
    case Finite(x) => Ret(Round(x * ZatoshiPerZecash as real), None)
  }

  // ---------------------------------------------------------------------
  // Properties of the rounding
  // ---------------------------------------------------------------------

  /** The nearest-integer, ties-away-from-zero property determines `Round` uniquely. */
  lemma RoundUnique(f: real, n: int)
    requires -0.5 <= n as real - f <= 0.5
    requires n as real - f == 0.5 ==> f > 0.0
    requires f - n as real == 0.5 ==> f < 0.0
    ensures n == Round(f)
  {
  }

  /** Halves round away from zero. */
  lemma RoundHalfAwayFromZero(k: nat)
    ensures Round(k as real + 0.5) == k + 1
    ensures Round(-(k as real + 0.5)) == -(k + 1)
  {
    RoundUnique(k as real + 0.5, k + 1);
    RoundUnique(-(k as real + 0.5), -(k + 1));
  }

  /** Rounding is odd. */
  lemma RoundOdd(f: real)
    ensures Round(-f) == -Round(f)
  {
    RoundUnique(-f, -Round(f));
  }

  /** Rounding is monotone. */
  lemma RoundMonotone(f: real, g: real)
    requires f <= g
    ensures Round(f) <= Round(g)
  {
  }

  /** Integer values are left unchanged. */
  lemma RoundInteger(n: int)
    ensures Round(n as real) == n
  {
    RoundUnique(n as real, n);
  }

  // ---------------------------------------------------------------------
  // Properties of the conversion
  // ---------------------------------------------------------------------

  /** A whole number of ZEC converts exactly. */
  lemma NewAmountWholeZec(n: int)
    ensures NewAmount(Finite(n as real)) == Ret(n * ZatoshiPerZecash, None)
  {
    RoundInteger(n * ZatoshiPerZecash);
  }

  /** 1.23456789 ZEC is 123456789 zatoshi. */
  lemma NewAmountExample()
    ensures NewAmount(Finite(1.23456789)) == Ret(123456789, None)
  {
    RoundInteger(123456789);
  }
}
