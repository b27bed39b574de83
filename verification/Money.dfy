/** Exact amounts in minor units; the currency is part of the value. */
module Money {
  import opened Results

  predicate IsUpper(c: char) { 'A' <= c <= 'Z' }

  /** What the code's pattern accepts: three capitals, and a trailing newline, which its `$` lets through. */
  predicate IsCurrencyCode(s: string) {
    && (|s| == 3 || (|s| == 4 && s[3] == '\n'))
    && forall i | 0 <= i < 3 :: IsUpper(s[i])
  }

  const CAPITALS := "ABCDEFGHIJKLMNOPQRSTUVWXYZ"

  lemma CapitalLetters(c: char)
    ensures IsUpper(c) <==> c in CAPITALS
  {
    if IsUpper(c) {
      assert CAPITALS[(c - 'A') as int] == c;
    }
  }

  predicate ThreeCapitals(s: string) {
    |s| == 3 && s[0] in CAPITALS && s[1] in CAPITALS && s[2] in CAPITALS
  }

  /**
   * Accepted are three capitals, and three capitals with a newline behind them: an accepted code is three capitals
   * exactly when its length is three, and at least one accepted code is not.
   */
  lemma AcceptedCodes(s: string)
    ensures IsCurrencyCode(s) <==> ThreeCapitals(s) || (|s| == 4 && ThreeCapitals(s[..3]) && s[3] == '\n')
    ensures IsCurrencyCode(s) ==> (|s| == 3 <==> ThreeCapitals(s))
  {
    hide IsUpper;
    if |s| >= 3 {
      CapitalLetters(s[0]);
      CapitalLetters(s[1]);
      CapitalLetters(s[2]);
    }
  }

  lemma NewlineAccepted()
    ensures IsCurrencyCode("USD\n") && !ThreeCapitals("USD\n")
  {
  }

  type Currency = s: string | IsCurrencyCode(s) witness "USD"

  datatype Money = Money(amount: int, currency: Currency) {
    function Add(other: Money): Result<Money> {
      if currency != other.currency then Err(CurrencyMismatch)
      else Ok(Money(amount + other.amount, currency))
    }

    function Neg(): Money { Money(-amount, currency) }

    predicate IsZero() { amount == 0 }
    predicate IsPositive() { amount > 0 }
    predicate IsNegative() { amount < 0 }
  }
}
