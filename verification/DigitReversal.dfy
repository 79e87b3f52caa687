/** What reversal does to each single digit of an index. */
module DigitReversal {
  import opened Arithmetic
  import opened RadicalInverse

  /** Digit `i` of a number, counted from the last one. */
  function DigitAt(value: nat, base: nat, i: nat): nat
    requires base >= 2
  {
    if i == 0 then value % base else DigitAt(value / base, base, i - 1)
  }

  /** The digits below a leading one are those of the remainder. */
  lemma {:induction false} LeadingDigits(lead: nat, y: nat, base: nat, n: nat, i: nat)
    requires base >= 2 && lead < base && y < Pow(base, n) && i <= n
    ensures DigitAt(lead * Pow(base, n) + y, base, i) == if i == n then lead else DigitAt(y, base, i)
    decreases n
  {
    hide Pow;
    if n == 0 {
      PowZero(base);
      DivMod(lead, 0, lead, base);
    } else {
      var p := Pow(base, n - 1);
      PowStep(base, n);
      Division(y, base);
      QuotientBelow(y, base, p);
      Distribute(lead, p, y / base, base);
      DivMod(lead * Pow(base, n) + y, lead * p + y / base, y % base, base);
      if i > 0 {
        LeadingDigits(lead, y / base, base, n - 1, i - 1);
      }
    }
  }

  /** Reversal puts digit `k - 1 - i` where digit `i` was. */
  lemma {:induction false} ReversedDigits(value: nat, base: nat, k: nat, i: nat)
    requires base >= 2 && i < k
    ensures DigitAt(Reversed(value, base, k), base, i) == DigitAt(value, base, k - 1 - i)
    decreases k
  {
    hide Reversed, Pow;
    var rest := Rest(value, base);
    RestIsQuotient(value, base);
    ReversedDigit(value, base, k);
    ReversedBelow(rest, base, k - 1);
    LeadingDigits(Digit(value, base), Reversed(rest, base, k - 1), base, k - 1, i);
    if i < k - 1 {
      ReversedDigits(rest, base, k - 1, i);
    }
  }
}
