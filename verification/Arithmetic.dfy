/** Facts about products and quotients, stated so that no proof elsewhere has to reason
    about multiplication itself. */
module Arithmetic {

  lemma MulMonotone(a: nat, b: nat, c: nat)
    ensures a <= b ==> a * c <= b * c
    ensures a < b ==> a * c + c <= b * c
  {
    if a < b {
      assert b * c == a * c + c + (b - a - 1) * c;
      NonNegative(b - a - 1, c);
    }
  }

  lemma NonNegative(a: nat, b: nat)
    ensures a * b >= 0
  {
  }

  lemma Division(value: nat, base: nat)
    requires base >= 1
    ensures value == (value / base) * base + value % base && value % base < base
  {
  }

  /** Quotient and remainder are determined by their defining equation. */
  lemma DivMod(value: nat, quotient: nat, digit: nat, base: nat)
    requires digit < base && value == quotient * base + digit
    ensures value / base == quotient && value % base == digit
  {
    Division(value, base);
    MulMonotone(quotient, value / base, base);
    MulMonotone(value / base, quotient, base);
  }

  lemma QuotientShrinks(value: nat, base: nat)
    requires base >= 2 && value > 0
    ensures value / base < value
  {
    Division(value, base);
    MulMonotone(2, base, value / base);
  }

  lemma QuotientBelow(value: nat, base: nat, bound: nat)
    requires base >= 1 && value < base * bound
    ensures value / base < bound
  {
    Division(value, base);
    MulMonotone(bound, value / base, base);
  }

  lemma NestedDivision(value: nat, base: nat, p: nat)
    requires base >= 1 && p >= 1
    ensures base * p >= 1
    ensures value / (base * p) == (value / base) / p
    ensures value % (base * p) == ((value / base) % p) * base + value % base
  {
    var q, digit := value / base, value % base;
    var t, r := q / p, q % p;
    Division(value, base);
    Division(q, p);
    MulMonotone(r, p, base);
    Distribute(t, p, r, base);
    MulMonotone(1, p, base);
    DivMod(value, t, r * base + digit, base * p);
  }

  lemma Distribute(t: nat, p: nat, r: nat, base: nat)
    ensures (t * p + r) * base == t * (base * p) + r * base
  {
    assert (t * p) * base == t * (base * p);
  }

  lemma SameResidue(start: nat, p: nat, v: nat, w: nat)
    requires p >= 1 && start <= v < start + p && start <= w < start + p && v % p == w % p
    ensures v == w
  {
    Division(v, p);
    Division(w, p);
    MulMonotone(v / p, w / p, p);
    MulMonotone(w / p, v / p, p);
  }

  /** A window of `p` consecutive numbers meets every residue. */
  lemma ResidueInWindow(start: nat, p: nat, target: nat) returns (v: nat)
    requires target < p
    ensures start <= v < start + p && v % p == target
  {
    Division(start, p);
    var q := start / p;
    v := q * p + target;
    DivMod(v, q, target, p);
    if v < start {
      v := v + p;
      assert v == (q + 1) * p + target;
      DivMod(v, q + 1, target, p);
    }
  }

  lemma RealMonotone(a: real, b: real, c: real)
    requires c >= 0.0
    ensures a <= b ==> a * c <= b * c
    ensures a < b && c > 0.0 ==> a * c < b * c
  {
    if a < b {
      var gap := b - a;
      assert b * c == a * c + gap * c;
      assert gap * c >= 0.0;
    }
  }

  lemma DivideBack(x: real, b: real)
    requires b != 0.0
    ensures (x / b) * b == x
  {
  }

  lemma QuotientUnit(x: real, b: real)
    requires b > 0.0
    ensures 0.0 <= x ==> 0.0 <= x / b
    ensures x <= b ==> x / b <= 1.0
    ensures x < b ==> x / b < 1.0
  {
    DivideBack(x, b);
    RealMonotone(1.0, x / b, b);
    RealMonotone(x / b, 0.0, b);
  }

  lemma QuotientMonotone(x: real, y: real, b: real)
    requires b > 0.0
    ensures x <= y ==> x / b <= y / b
    ensures x < y ==> x / b < y / b
  {
    DivideBack(x, b);
    DivideBack(y, b);
    RealMonotone(y / b, x / b, b);
  }

  lemma RealAssociate(x: real, y: real, z: real)
    ensures (x * y) * z == x * (y * z)
  {
  }

  lemma RealDistribute(x: real, y: real, z: real)
    ensures (x + y) * z == x * z + y * z
    ensures (x - y) * z == x * z - y * z
  {
  }

  lemma NatProduct(a: nat, b: nat)
    ensures a as real * b as real == (a * b) as real
  {
  }

  lemma RealCancel(c: real, s: real, t: real)
    requires c > 0.0 && c * s == c * t
    ensures s == t
  {
    RealMonotone(s, t, c);
    RealMonotone(t, s, c);
  }

  lemma Share(p: real, c: real)
    requires 0.0 <= p <= 1.0 && c >= 0.0
    ensures 0.0 <= p * c <= c
  {
    RealMonotone(0.0, p, c);
    RealMonotone(p, 1.0, c);
  }

  lemma QuotientSelf(b: real)
    requires b != 0.0
    ensures b / b == 1.0
  {
  }

  lemma QuotientZero(b: real)
    requires b != 0.0
    ensures 0.0 / b == 0.0
  {
  }

  /** Dividing a product is multiplying by the quotient. */
  lemma ProductQuotient(x: real, y: real, b: real)
    requires b > 0.0
    ensures x * y / b == y * (x / b)
  {
    DivideBack(x, b);
    DivideBack(x * y, b);
    RealAssociate(y, x / b, b);
    RealCancel(b, x * y / b, y * (x / b));
  }
}
