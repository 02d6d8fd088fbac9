/** Integer division as C performs it on `int`: the quotient is truncated
    toward zero. Dafny's own `/` on `int` is Euclidean (the remainder is never
    negative), so the two differ whenever the dividend is negative. */
module TruncDivision {

  function Abs(x: int): nat
  {
    if x < 0 then -x else x
  }

  /** The quotient of C's `a / b`: its magnitude is the Euclidean quotient of
      the magnitudes, and it is negative exactly when `a` and `b` have
      opposite signs (and the quotient is not zero). */
  function TruncDiv(a: int, b: int): (q: int)
    requires b != 0
    ensures Abs(q) == Abs(a) / Abs(b)
    ensures q > 0 ==> (a > 0 && b > 0) || (a < 0 && b < 0)
    ensures q < 0 ==> (a > 0 && b < 0) || (a < 0 && b > 0)
  {
    var n, d := Abs(a), Abs(b);
    QuotientFacts(n, d);
    var m: int := n / d;
    if (a < 0) == (b < 0) then m else -m
  }

  lemma QuotientFacts(n: nat, d: nat)
    requires d > 0
    ensures n / d >= 0
    ensures n == 0 ==> n / d == 0
  {
  }

  /** The magnitude of the C quotient is the number of whole `|b|`s that fit
      in `|a|`. */
  lemma TruncDivBracket(a: int, b: int)
    requires b != 0
    ensures Abs(TruncDiv(a, b)) * Abs(b) <= Abs(a) < Abs(TruncDiv(a, b)) * Abs(b) + Abs(b)
  {
  }

  /** The Euclidean quotient of naturals brackets the dividend. */
  lemma DivBracket(n: nat, d: nat)
    requires d > 0
    ensures (n / d) * d <= n < (n / d) * d + d
  {
  }

  /** The remainder `a - TruncDiv(a, b) * b` is smaller than the divisor in
      magnitude and never has the sign opposite to the dividend's, so the
      product `TruncDiv(a, b) * b` lies between 0 and `a`. */
  lemma TruncDivRemainder(a: int, b: int)
    requires b != 0
    ensures Abs(TruncDiv(a, b) * b) <= Abs(a)
    ensures Abs(a - TruncDiv(a, b) * b) < Abs(b)
    ensures a >= 0 ==> 0 <= TruncDiv(a, b) * b <= a
    ensures a <= 0 ==> a <= TruncDiv(a, b) * b <= 0
  {
  }

  /** A quotient magnitude bracketed as in TruncDivBracket is the Euclidean
      quotient of the magnitudes. */
  lemma BracketIsQuotient(n: nat, d: nat, k: nat)
    requires d > 0
    requires k * d <= n < k * d + d
    ensures k == n / d
  {
    var k0 := n / d;
    DivBracket(n, d);
    if k < k0 {
      MulMono(k + 1, k0, d);
    } else if k0 < k {
      MulMono(k0 + 1, k, d);
    }
  }

  lemma MulMono(x: nat, y: nat, d: nat)
    requires x <= y
    ensures x * d <= y * d
  {
  }

  /** The bracket of TruncDivBracket and the sign rule of TruncDiv determine
      the quotient: any `q` meeting them is the C quotient, so together they
      are an independent definition of C's division. */
  lemma TruncDivUnique(a: int, b: int, q: int)
    requires b != 0
    requires Abs(q) * Abs(b) <= Abs(a) < Abs(q) * Abs(b) + Abs(b)
    requires q > 0 ==> (a > 0 && b > 0) || (a < 0 && b < 0)
    requires q < 0 ==> (a > 0 && b < 0) || (a < 0 && b > 0)
    ensures q == TruncDiv(a, b)
  {
    BracketIsQuotient(Abs(a), Abs(b), Abs(q));
  }

  /** Zero divided by anything non-zero is zero. */
  lemma TruncDivZero(b: int)
    requires b != 0
    ensures TruncDiv(0, b) == 0
  {
  }

  /** Negating the dividend or the divisor negates the C quotient; Dafny's
      Euclidean `/` has neither property. */
  lemma TruncDivOddInDividend(a: int, b: int)
    requires b != 0
    ensures TruncDiv(-a, b) == -TruncDiv(a, b)
  {
  }

  lemma TruncDivOddInDivisor(a: int, b: int)
    requires b != 0
    ensures TruncDiv(a, -b) == -TruncDiv(a, b)
  {
  }

  /** On a non-negative dividend and a positive divisor the C quotient and the
      Euclidean one agree. */
  lemma TruncDivAgreesWithEuclidean(a: int, b: int)
    requires a >= 0 && b > 0
    ensures TruncDiv(a, b) == a / b
  {
  }

  /** With a negative dividend they differ: C gives -7 / 2 == -3, the Euclidean
      quotient is -4. */
  lemma TruncDivDiffersFromEuclidean()
    ensures TruncDiv(-7, 2) == -3
    ensures (-7) / 2 == -4
  {
  }
}
