/** How evenly the two axes of the benchmark points are spread together: any window of
    2^a * 3^b consecutive points meets each cell of the 2^a by 3^b grid exactly once. And what
    the rotation does to a point. */
module BenchmarkCells {
  import opened Arithmetic
  import opened RadicalInverse

  // ---- One residue modulo a power of two and one modulo an odd number ----

  lemma Double(u: nat, bit: nat, p: nat)
    requires p >= 1 && bit < 2
    ensures 2 * p >= 1 && (2 * u + bit) % (2 * p) == 2 * (u % p) + bit
  {
    NestedDivision(2 * u + bit, 2, p);
    DivMod(2 * u + bit, u, bit, 2);
  }

  lemma Residue(value: nat, quotient: nat, digit: nat, base: nat)
    requires digit < base && value == quotient * base + digit
    ensures value % base == digit
  {
    DivMod(value, quotient, digit, base);
  }

  /** The residue whose double, plus a bit, is `s` modulo an odd `m`. */
  lemma Halved(m: nat, s: nat, bit: nat) returns (half: nat, carry: nat)
    requires m % 2 == 1 && s < m && bit < 2
    ensures half < m && 2 * half + bit == carry * m + s && carry <= 2
  {
    var x := if s >= bit then s - bit else s + m - bit;
    carry := if s >= bit then 0 else 1;
    if x % 2 == 0 {
      half := x / 2;
    } else {
      half, carry := (x + m) / 2, carry + 1;
    }
    assert 2 * half + bit == carry * m + s;
  }

  /** Some number has both residues. */
  lemma {:induction false} BothResidues(a: nat, m: nat, r: nat, s: nat) returns (v: nat)
    requires m % 2 == 1 && r < Pow(2, a) && s < m
    ensures v % Pow(2, a) == r && v % m == s
    decreases a
  {
    hide Pow;
    if a == 0 {
      v := s;
      PowZero(2);
      Residue(s, 0, s, m);
      Residue(s, s, 0, 1);
    } else {
      PowStep(2, a);
      HalfBelow(r, Pow(2, a - 1));
      var half, carry := Halved(m, s, r % 2);
      var u := BothResidues(a - 1, m, r / 2, half);
      v := 2 * u + r % 2;
      LowResidue(u, r, Pow(2, a - 1));
      HighResidue(u, m, half, carry, s, r % 2);
    }
  }

  lemma HalfBelow(r: nat, p: nat)
    requires r < 2 * p
    ensures r / 2 < p && r == 2 * (r / 2) + r % 2
  {
  }

  lemma LowResidue(u: nat, r: nat, p: nat)
    requires p >= 1 && u % p == r / 2
    ensures (2 * u + r % 2) % (2 * p) == r
  {
    Double(u, r % 2, p);
  }

  lemma HighResidue(u: nat, m: nat, half: nat, carry: nat, s: nat, bit: nat)
    requires s < m && u % m == half && 2 * half + bit == carry * m + s
    ensures (2 * u + bit) % m == s
  {
    var q := Quotient(u, m);
    Doubled(u, q, carry, m, half, s, bit);
    Residue(2 * u + bit, 2 * q + carry, s, m);
  }

  lemma Quotient(u: nat, m: nat) returns (q: nat)
    requires m >= 1
    ensures u == q * m + u % m
  {
    q := u / m;
    Division(u, m);
  }

  lemma Doubled(u: nat, q: nat, carry: nat, m: nat, half: nat, s: nat, bit: nat)
    requires u == q * m + half && 2 * half + bit == carry * m + s
    ensures 2 * u + bit == (2 * q + carry) * m + s
  {
    SumTimes(q, q, m);
    SumTimes(2 * q, carry, m);
  }

  lemma SplitResidue(p: nat, v: nat, w: nat)
    requires p >= 1 && v % (2 * p) == w % (2 * p)
    ensures v % 2 == w % 2 && (v / 2) % p == (w / 2) % p
  {
    NestedDivision(v, 2, p);
    NestedDivision(w, 2, p);
  }

  lemma JoinResidue(p: nat, v: nat, w: nat)
    requires p >= 1 && v % 2 == w % 2 && (v / 2) % p == (w / 2) % p
    ensures v % (2 * p) == w % (2 * p)
  {
    NestedDivision(v, 2, p);
    NestedDivision(w, 2, p);
  }

  /** And the two residues determine the residue modulo the product. */
  lemma {:induction false} ResiduesDetermine(a: nat, m: nat, v: nat, w: nat)
    requires m % 2 == 1 && v % Pow(2, a) == w % Pow(2, a) && v % m == w % m
    ensures Pow(2, a) * m >= 1 && v % (Pow(2, a) * m) == w % (Pow(2, a) * m)
    decreases a
  {
    hide Pow;
    MulMonotone(1, Pow(2, a), m);
    if a == 0 {
      PowZero(2);
    } else {
      var p := Pow(2, a - 1);
      PowStep(2, a);
      SplitResidue(p, v, w);
      HalvesAgree(m, v, w);
      ResiduesDetermine(a - 1, m, v / 2, w / 2);
      JoinResidue(p * m, v, w);
      Regroup(2, m, p);
    }
  }

  lemma HalvesAgree(m: nat, v: nat, w: nat)
    requires m % 2 == 1 && v % m == w % m && v % 2 == w % 2
    ensures (v / 2) % m == (w / 2) % m
  {
    if v <= w {
      HalvesOrdered(m, v, w);
    } else {
      HalvesOrdered(m, w, v);
    }
  }

  lemma HalvesOrdered(m: nat, v: nat, w: nat)
    requires m % 2 == 1 && v <= w && v % m == w % m && v % 2 == w % 2
    ensures (v / 2) % m == (w / 2) % m
  {
    var k := Multiple(m, v, w);
    EvenDifference(v, w, k * m);
    EvenFactor(k, m);
    HalfSum(v, w, (k / 2) * m);
    AddMultiple(v / 2, k / 2, m);
  }

  lemma Multiple(m: nat, v: nat, w: nat) returns (k: nat)
    requires m >= 1 && v <= w && v % m == w % m
    ensures w - v == k * m
  {
    Division(v, m);
    Division(w, m);
    MulMonotone(w / m, v / m, m);
    k := w / m - v / m;
    Difference(w / m, v / m, m);
  }

  lemma Difference(x: nat, y: nat, m: nat)
    ensures (x - y) * m == x * m - y * m
  {
  }

  lemma EvenDifference(v: nat, w: nat, t: nat)
    requires w - v == t && v % 2 == w % 2
    ensures t % 2 == 0
  {
  }

  lemma HalfSum(v: nat, w: nat, t: nat)
    requires w - v == 2 * t
    ensures w / 2 == v / 2 + t
  {
  }

  lemma AddMultiple(x: nat, k: nat, m: nat)
    requires m >= 1
    ensures k * m >= 0 && (x + k * m) % m == x % m
  {
    NonNegative(k, m);
    Division(x, m);
    SumTimes(x / m, k, m);
    Residue(x + k * m, x / m + k, x % m, m);
  }

  lemma SumTimes(x: nat, y: nat, m: nat)
    ensures (x + y) * m == x * m + y * m
  {
  }

  lemma EvenFactor(k: nat, m: nat)
    requires m % 2 == 1 && (k * m) % 2 == 0
    ensures k % 2 == 0 && k * m == 2 * ((k / 2) * m)
  {
    var h := m / 2;
    assert k * m == 2 * (k * h) + k by { assert m == 2 * h + 1; }
  }

  lemma {:induction false} PowerOfThreeIsOdd(b: nat)
    ensures Pow(3, b) % 2 == 1
  {
    if b > 0 {
      PowerOfThreeIsOdd(b - 1);
    }
  }

  // ---- Cells of the grid ----

  /** The point lies in column `i` of 2^a and row `j` of 3^b. */
  predicate InGridCell(point: Point, a: nat, b: nat, i: nat, j: nat) {
    && i as real <= point.x * Pow(2, a) as real < (i + 1) as real
    && j as real <= point.y * Pow(3, b) as real < (j + 1) as real
  }

  /** A cell of one axis is a residue of the index. */
  lemma CellIsResidue(value: nat, base: nat, k: nat, cell: nat)
    requires base >= 2 && cell < Pow(base, k)
    ensures InCell(value, base, k, cell) <==> value % Pow(base, k) == Reversed(cell, base, k)
  {
    hide Reversed, Pow, InCell;
    CellOf(value, base, k, cell);
    ReversedLowDigits(value, base, k);
    ReversedTwice(cell, base, k);
    ReversedTwice(value % Pow(base, k), base, k);
  }

  lemma GridCellIsResidues(index: nat, a: nat, b: nat, i: nat, j: nat)
    requires i < Pow(2, a) && j < Pow(3, b)
    ensures InGridCell(UnitPoint(index), a, b, i, j)
      <==> (index + 1) % Pow(2, a) == Reversed(i, 2, a) && (index + 1) % Pow(3, b) == Reversed(j, 3, b)
  {
    hide Pow, Radical, Reversed;
    CellIsResidue(index + 1, 2, a, i);
    CellIsResidue(index + 1, 3, b, j);
  }

  /** Among any 2^a * 3^b consecutive points exactly one lies in each cell of the grid. */
  lemma OnePerGridCell(start: nat, a: nat, b: nat, i: nat, j: nat) returns (hit: nat)
    requires i < Pow(2, a) && j < Pow(3, b)
    ensures start <= hit < start + Pow(2, a) * Pow(3, b) && InGridCell(UnitPoint(hit), a, b, i, j)
    ensures forall other: nat ::
      start <= other < start + Pow(2, a) * Pow(3, b) && InGridCell(UnitPoint(other), a, b, i, j) ==> other == hit
  {
    hide Pow, Reversed, InGridCell, UnitPoint;
    var p, m := Pow(2, a), Pow(3, b);
    var r, s := Reversed(i, 2, a), Reversed(j, 3, b);
    PowerOfThreeIsOdd(b);
    ReversedBelow(i, 2, a);
    ReversedBelow(j, 3, b);
    MulMonotone(1, p, m);
    var v := WindowHit(start + 1, a, m, r, s);
    hit := v - 1;
    GridCellIsResidues(hit, a, b, i, j);
    forall other: nat | start <= other < start + p * m && InGridCell(UnitPoint(other), a, b, i, j) ensures other == hit {
      GridCellIsResidues(other, a, b, i, j);
      ResiduesDetermine(a, m, other + 1, hit + 1);
      SameResidue(start + 1, p * m, other + 1, hit + 1);
    }
  }

  lemma WindowHit(start: nat, a: nat, m: nat, r: nat, s: nat) returns (v: nat)
    requires m % 2 == 1 && r < Pow(2, a) && s < m
    ensures start <= v < start + Pow(2, a) * m && v % Pow(2, a) == r && v % m == s
  {
    hide Pow;
    var p := Pow(2, a);
    MulMonotone(1, p, m);
    var some := BothResidues(a, m, r, s);
    Division(some, p * m);
    v := ResidueInWindow(start, p * m, some % (p * m));
    SameFactorResidue(v, some, p, m);
    assert p * m == m * p;
    SameFactorResidue(v, some, m, p);
  }

  lemma SameFactorResidue(v: nat, w: nat, p: nat, m: nat)
    requires p >= 1 && p * m >= 1 && v % (p * m) == w % (p * m)
    ensures v % p == w % p
  {
    FactorResidue(v, p, m);
    FactorResidue(w, p, m);
  }

  lemma FactorResidue(v: nat, p: nat, m: nat)
    requires p >= 1 && p * m >= 1
    ensures v % p == (v % (p * m)) % p
  {
    var q := v / (p * m);
    Division(v, p * m);
    NonNegative(q, m);
    Regroup(q, p, m);
    AddMultiple(v % (p * m), q * m, p);
  }

  lemma Regroup(q: nat, p: nat, m: nat)
    ensures q * (p * m) == (q * m) * p
  {
  }

  // ---- The rotation ----

  /** Rotation adds the constant and takes whole turns off: the result lies in the unit interval
      and differs from the sum by a whole number, here none or one. */
  lemma RotationTurns(x: real, c: real)
    requires 0.0 <= x < 1.0 && 0.0 <= c < 1.0
    ensures 0.0 <= Fract(x + c) < 1.0
    ensures Fract(x + c) == if x + c < 1.0 then x + c else x + c - 1.0
  {
  }

  /** Ray `index` of a corpus starts over the footprint in proportion to the rotated point `index`,
      as far above the box as it ends below it. */
  lemma RayOrigin(minimum: Vec3, maximum: Vec3, diagonal: real, count: nat, index: nat)
    requires index < count
    ensures |BenchmarkRays(minimum, maximum, diagonal, count)| == count
    ensures var ray, point := BenchmarkRays(minimum, maximum, diagonal, count)[index], UnitPoint(index);
      && ray.origin.x - minimum.x == (maximum.x - minimum.x) * Fract(point.x + 0.754_877_666_246_692_7)
      && ray.origin.y - minimum.y == (maximum.y - minimum.y) * Fract(point.y + 0.569_840_290_998_053_2)
      && ray.origin.z - maximum.z == 0.25 * diagonal + 0.001
      && minimum.z - (ray.origin.z - ray.maximum) == 0.25 * diagonal + 0.001
  {
    hide Fract, UnitPoint;
  }
}
