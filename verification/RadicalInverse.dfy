/** The radical-inverse sequence behind the benchmark rays, in exact arithmetic: it reverses
    the digits of the index behind the radix point, and any window of `base^k` consecutive
    indices visits every one of the `base^k` equal cells of [0, 1) exactly once. */
module RadicalInverse {
  import opened Arithmetic

  function Pow(base: nat, k: nat): (p: nat)
    requires base >= 2
    ensures p >= 1
  {
    if k == 0 then 1 else base * Pow(base, k - 1)
  }

  /** The last digit of `value`, and the number without it. */
  function Digit(value: nat, base: nat): (d: nat)
    requires base >= 2
    ensures d < base
  {
    value % base
  }

  function Rest(value: nat, base: nat): (r: nat)
    requires base >= 2
    ensures value > 0 ==> r < value
  {
    if value > 0 then (QuotientShrinks(value, base); value / base) else 0
  }

  lemma RestIsQuotient(value: nat, base: nat)
    requires base >= 2
    ensures Rest(value, base) == value / base
  {
    if value == 0 {
      DivMod(0, 0, 0, base);
    }
  }

  lemma DigitsAre(value: nat, base: nat, rest: nat, digit: nat)
    requires base >= 2 && digit < base && value == rest * base + digit
    ensures Digit(value, base) == digit && Rest(value, base) == rest
  {
    RestIsQuotient(value, base);
    DivMod(value, rest, digit, base);
  }

  lemma DigitsOf(value: nat, base: nat)
    requires base >= 2
    ensures value == Rest(value, base) * base + Digit(value, base)
  {
    RestIsQuotient(value, base);
    Division(value, base);
  }

  /** The digits of `value` in `base`, mirrored at the radix point. */
  function Radical(value: nat, base: nat): real
    requires base >= 2
  {
    if value == 0 then 0.0
    else (Digit(value, base) as real + Radical(Rest(value, base), base)) / base as real
  }

  /** The lowest `k` digits of `value` in reverse order. */
  function Reversed(value: nat, base: nat, k: nat): nat
    requires base >= 2
  {
    if k == 0 then 0
    else Digit(value, base) * Pow(base, k - 1) + Reversed(Rest(value, base), base, k - 1)
  }

  /** The program's loop over `value`, `denominator` and `result`. */
  method RadicalInverse(index: nat, base: nat) returns (result: real)
    requires base >= 2
    ensures result == Radical(index, base)
    ensures 0.0 <= result < 1.0
  {
    hide Radical, Digit, Rest, Weighted;
    var inverse := 1.0 / base as real;
    var value: nat, denominator := index, inverse;
    result := 0.0;
    RadicalRange(index, base);
    WholeWeight(index, base);
    while value > 0
      invariant Radical(index, base) == result + Weighted(denominator, value, base)
    {
      NextDigit(denominator, inverse, value, base);
      result := Digit(value, base) as real * denominator + result;
      value := Rest(value, base);
      denominator := denominator * inverse;
    }
    NothingLeft(denominator, base);
  }

  /** What the digits not yet read still contribute; `denominator` weighs the next one. */
  ghost function Weighted(denominator: real, value: nat, base: nat): real
    requires base >= 2
  {
    (denominator * base as real) * Radical(value, base)
  }

  lemma WholeWeight(index: nat, base: nat)
    requires base >= 2
    ensures Weighted(1.0 / base as real, index, base) == Radical(index, base)
  {
    DivideBack(1.0, base as real);
  }

  lemma NothingLeft(denominator: real, base: nat)
    requires base >= 2
    ensures Weighted(denominator, 0, base) == 0.0
  {
  }

  lemma NextDigit(denominator: real, inverse: real, value: nat, base: nat)
    requires base >= 2 && value > 0 && inverse == 1.0 / base as real
    ensures Weighted(denominator, value, base)
         == Digit(value, base) as real * denominator + Weighted(denominator * inverse, Rest(value, base), base)
  {
    hide Radical, Digit, Rest;
    var b, x, d, y := base as real, Radical(value, base), Digit(value, base) as real, Radical(Rest(value, base), base);
    RadicalDigits(value, base);
    RealAssociate(denominator, b, x);
    RealDistribute(d, y, denominator);
    DivideBack(1.0, b);
    RealAssociate(denominator, inverse, b);
  }

  lemma RadicalUnfolds(value: nat, base: nat)
    requires base >= 2 && value > 0
    ensures Radical(value, base) == (Digit(value, base) as real + Radical(Rest(value, base), base)) / base as real
  {
  }

  lemma RadicalZero(base: nat)
    requires base >= 2
    ensures Radical(0, base) == 0.0
  {
  }

  // ---- Digit reversal ----

  lemma {:induction false} ReversedBelow(value: nat, base: nat, k: nat)
    requires base >= 2
    ensures Reversed(value, base, k) < Pow(base, k)
  {
    if k > 0 {
      ReversedBelow(Rest(value, base), base, k - 1);
      MulMonotone(Digit(value, base), base, Pow(base, k - 1));
    }
  }

  /** A new leading digit becomes the last one. */
  lemma {:induction false} LeadingDigit(digit: nat, y: nat, base: nat, k: nat)
    requires base >= 2 && k > 0 && digit < base && y < Pow(base, k - 1)
    ensures Reversed(digit * Pow(base, k - 1) + y, base, k) == Reversed(y, base, k - 1) * base + digit
  {
    hide Reversed, Pow, Digit, Rest;
    var x := digit * Pow(base, k - 1) + y;
    ReversedDigit(x, base, k);
    if k == 1 {
      PowZero(base);
      ReversedZero(base);
      DigitsAre(x, base, 0, digit);
    } else {
      var p, q := Pow(base, k - 1), Pow(base, k - 2);
      PowStep(base, k - 1);
      DigitsOf(y, base);
      RestBelow(y, base, k - 1);
      Distribute(digit, q, Rest(y, base), base);
      DigitsAre(x, base, digit * q + Rest(y, base), Digit(y, base));
      LeadingDigit(digit, Rest(y, base), base, k - 1);
      ReversedDigit(y, base, k - 1);
      RegroupDigits(Digit(y, base), q, Reversed(Rest(y, base), base, k - 2), base, digit);
    }
  }

  lemma PowZero(base: nat)
    requires base >= 2
    ensures Pow(base, 0) == 1
  {
  }

  lemma ReversedZero(base: nat)
    requires base >= 2
    ensures forall value :: Reversed(value, base, 0) == 0
  {
  }

  lemma RestBelow(value: nat, base: nat, k: nat)
    requires base >= 2 && k > 0 && value < Pow(base, k)
    ensures Rest(value, base) < Pow(base, k - 1)
  {
    RestIsQuotient(value, base);
    QuotientBelow(value, base, Pow(base, k - 1));
  }

  lemma PowStep(base: nat, k: nat)
    requires base >= 2 && k > 0
    ensures Pow(base, k) == base * Pow(base, k - 1)
  {
  }

  lemma ReversedDigit(value: nat, base: nat, k: nat)
    requires base >= 2 && k > 0
    ensures Reversed(value, base, k) == Digit(value, base) * Pow(base, k - 1) + Reversed(Rest(value, base), base, k - 1)
  {
  }

  lemma RegroupDigits(d: nat, q: nat, r: nat, base: nat, last: nat)
    ensures d * (base * q) + (r * base + last) == (d * q + r) * base + last
  {
    Distribute(d, q, r, base);
  }

  /** Reversal undoes itself. */
  lemma {:induction false} ReversedTwice(value: nat, base: nat, k: nat)
    requires base >= 2 && value < Pow(base, k)
    ensures Reversed(Reversed(value, base, k), base, k) == value
  {
    if k > 0 {
      hide Reversed, Pow, Digit, Rest;
      var rest := Rest(value, base);
      RestBelow(value, base, k);
      ReversedTwice(rest, base, k - 1);
      ReversedBelow(rest, base, k - 1);
      ReversedDigit(value, base, k);
      DigitsOf(value, base);
      LeadingDigit(Digit(value, base), Reversed(rest, base, k - 1), base, k);
    } else {
      ReversedZero(base);
      PowZero(base);
    }
  }

  // ---- The sequence ----

  lemma {:induction false} RadicalRange(value: nat, base: nat)
    requires base >= 2
    ensures 0.0 <= Radical(value, base) < 1.0
  {
    hide Radical, Digit, Rest;
    if value > 0 {
      RadicalRange(Rest(value, base), base);
      RadicalUnfolds(value, base);
      QuotientUnit(Digit(value, base) as real + Radical(Rest(value, base), base), base as real);
    } else {
      RadicalZero(base);
    }
  }

  /** The value with the radix point moved `k` places. */
  function Shifted(value: nat, base: nat, k: nat): real
    requires base >= 2
  {
    Radical(value, base) * Pow(base, k) as real
  }

  /** The lowest digits become the whole part, the rest of the index the fraction. */
  lemma {:induction false} RadicalSplit(value: nat, base: nat, k: nat)
    requires base >= 2
    ensures Shifted(value, base, k) == Reversed(value, base, k) as real + Radical(value / Pow(base, k), base)
    decreases k
  {
    hide Shifted, Radical, Reversed, Pow, Digit, Rest;
    if k > 0 {
      RadicalSplit(Rest(value, base), base, k - 1);
      HighDigits(value, base, k);
      ShiftedStep(value, base, k);
    } else {
      NothingSplit(value, base);
    }
  }

  lemma ShiftedStep(value: nat, base: nat, k: nat)
    requires base >= 2 && k > 0
    ensures Shifted(value, base, k) - Reversed(value, base, k) as real
         == Shifted(Rest(value, base), base, k - 1) - Reversed(Rest(value, base), base, k - 1) as real
  {
    hide Radical, Reversed, Pow, Digit, Rest;
    var p, digit, rest := Pow(base, k - 1), Digit(value, base), Rest(value, base);
    RadicalDigits(value, base);
    PowStep(base, k);
    ReversedDigit(value, base, k);
    NatProduct(base, p);
    NatProduct(digit, p);
    Scale(Radical(value, base), base as real, p as real, digit as real, Radical(rest, base));
  }

  lemma NothingSplit(value: nat, base: nat)
    requires base >= 2
    ensures Shifted(value, base, 0) == Reversed(value, base, 0) as real + Radical(value / Pow(base, 0), base)
  {
    hide Radical;
    assert value / 1 == value;
  }

  lemma HighDigits(value: nat, base: nat, k: nat)
    requires base >= 2 && k > 0
    ensures value / Pow(base, k) == Rest(value, base) / Pow(base, k - 1)
    ensures value % Pow(base, k) == (Rest(value, base) % Pow(base, k - 1)) * base + Digit(value, base)
  {
    RestIsQuotient(value, base);
    NestedDivision(value, base, Pow(base, k - 1));
  }

  lemma Scale(x: real, b: real, p: real, d: real, y: real)
    requires x * b == d + y
    ensures x * (b * p) == d * p + y * p
  {
    RealAssociate(x, b, p);
    RealDistribute(d, y, p);
  }

  lemma RadicalDigits(value: nat, base: nat)
    requires base >= 2
    ensures Radical(value, base) * base as real == Digit(value, base) as real + Radical(Rest(value, base), base)
  {
    hide Radical, Digit, Rest;
    if value == 0 {
      DigitsAre(0, base, 0, 0);
      RadicalZero(base);
    } else {
      RadicalUnfolds(value, base);
      DivideBack(Digit(value, base) as real + Radical(Rest(value, base), base), base as real);
    }
  }

  /** The value of `index` lies in [j / base^k, (j + 1) / base^k). */
  predicate InCell(index: nat, base: nat, k: nat, j: nat)
    requires base >= 2
  {
    j as real <= Shifted(index, base, k) < (j + 1) as real
  }

  /** Index `value` falls in the cell named by its reversed low digits, whatever its high
      digits are. */
  lemma CellOf(value: nat, base: nat, k: nat, j: nat)
    requires base >= 2
    ensures InCell(value, base, k, j) <==> j == Reversed(value, base, k)
  {
    hide Radical, Reversed, Pow;
    RadicalSplit(value, base, k);
    RadicalRange(value / Pow(base, k), base);
  }

  /** The first `base^k` indices are mapped onto the grid j / base^k, each grid point once. */
  lemma ReversalIsBijective(base: nat, k: nat)
    requires base >= 2
    ensures forall v :: 0 <= v < Pow(base, k) ==>
      && Reversed(v, base, k) < Pow(base, k)
      && Radical(v, base) == Reversed(v, base, k) as real / Pow(base, k) as real
    ensures forall j :: 0 <= j < Pow(base, k) ==>
      && Reversed(j, base, k) < Pow(base, k)
      && Radical(Reversed(j, base, k), base) == j as real / Pow(base, k) as real
    ensures forall v, w :: 0 <= v < Pow(base, k) && 0 <= w < Pow(base, k) && Radical(v, base) == Radical(w, base)
                           ==> v == w
  {
    var p := Pow(base, k);
    forall v | 0 <= v < p
      ensures Reversed(v, base, k) < p && Radical(v, base) == Reversed(v, base, k) as real / p as real
    {
      GridPoint(v, base, k);
    }
    forall j | 0 <= j < p
      ensures Reversed(j, base, k) < p && Radical(Reversed(j, base, k), base) == j as real / p as real
    {
      ReversedBelow(j, base, k);
      ReversedTwice(j, base, k);
      GridPoint(Reversed(j, base, k), base, k);
    }
    forall v, w | 0 <= v < p && 0 <= w < p && Radical(v, base) == Radical(w, base) ensures v == w {
      DistinctIndices(v, w, base);
    }
  }

  lemma GridPoint(v: nat, base: nat, k: nat)
    requires base >= 2 && v < Pow(base, k)
    ensures Reversed(v, base, k) < Pow(base, k)
    ensures Radical(v, base) == Reversed(v, base, k) as real / Pow(base, k) as real
  {
    hide Radical, Reversed, Pow;
    ReversedBelow(v, base, k);
    RadicalSplit(v, base, k);
    DivMod(v, 0, v, Pow(base, k));
    RadicalZero(base);
    Recover(Radical(v, base), Pow(base, k) as real, Reversed(v, base, k) as real);
  }

  lemma Recover(x: real, p: real, y: real)
    requires p > 0.0 && x * p == y
    ensures x == y / p
  {
    DivideBack(y, p);
    RealCancel(p, x, y / p);
  }

  lemma {:induction false} PowExceeds(v: nat, base: nat)
    requires base >= 2
    ensures v < Pow(base, v)
  {
    if v > 0 {
      PowExceeds(v - 1, base);
      MulMonotone(2, base, Pow(base, v - 1));
    }
  }

  lemma {:induction false} PowMonotone(base: nat, j: nat, k: nat)
    requires base >= 2 && j <= k
    ensures Pow(base, j) <= Pow(base, k)
  {
    if j < k {
      PowMonotone(base, j, k - 1);
      MulMonotone(1, base, Pow(base, k - 1));
    }
  }

  /** Distinct indices have distinct values, without any bound on the indices. */
  lemma DistinctIndices(v: nat, w: nat, base: nat)
    requires base >= 2 && Radical(v, base) == Radical(w, base)
    ensures v == w
  {
    hide Radical, Reversed, Pow;
    var k := if v < w then w else v;
    PowExceeds(v, base);
    PowExceeds(w, base);
    PowMonotone(base, v, k);
    PowMonotone(base, w, k);
    SameCell(v, w, base, k);
    ReversedTwice(v, base, k);
    ReversedTwice(w, base, k);
  }

  lemma SameCell(v: nat, w: nat, base: nat, k: nat)
    requires base >= 2 && Radical(v, base) == Radical(w, base)
    ensures Reversed(v, base, k) == Reversed(w, base, k)
  {
    hide Radical, Reversed, Pow;
    CellOf(v, base, k, Reversed(v, base, k));
    CellOf(w, base, k, Reversed(v, base, k));
  }

  /** Only the low digits of the index choose its cell. */
  lemma {:induction false} ReversedLowDigits(value: nat, base: nat, k: nat)
    requires base >= 2
    ensures Reversed(value, base, k) == Reversed(value % Pow(base, k), base, k)
    decreases k
  {
    hide Reversed, Pow, Digit, Rest;
    if k > 0 {
      var digit, rest := Digit(value, base), Rest(value, base);
      ReversedLowDigits(rest, base, k - 1);
      HighDigits(value, base, k);
      var low := value % Pow(base, k);
      DigitsAre(low, base, rest % Pow(base, k - 1), digit);
      ReversedDigit(value, base, k);
      ReversedDigit(low, base, k);
    } else {
      ReversedZero(base);
    }
  }

  /** Equidistribution: every window of `base^k` consecutive indices has exactly one index
      in each of the `base^k` equal cells. The benchmark starts such a window at index 1. */
  lemma OnePerCell(start: nat, base: nat, k: nat, cell: nat)
    requires base >= 2 && cell < Pow(base, k)
    ensures exists v :: start <= v < start + Pow(base, k) && InCell(v, base, k, cell)
    ensures forall v, w :: start <= v < start + Pow(base, k) && InCell(v, base, k, cell)
                           && start <= w < start + Pow(base, k) && InCell(w, base, k, cell)
                           ==> v == w
  {
    hide Reversed, Pow, InCell;
    var p := Pow(base, k);
    var target := Reversed(cell, base, k);
    ReversedBelow(cell, base, k);
    ReversedTwice(cell, base, k);
    var hit := ResidueInWindow(start, p, target);
    ReversedLowDigits(hit, base, k);
    CellOf(hit, base, k, cell);
    forall v, w | start <= v < start + p && InCell(v, base, k, cell) && start <= w < start + p && InCell(w, base, k, cell)
      ensures v == w
    {
      CellOf(v, base, k, cell);
      CellOf(w, base, k, cell);
      ReversedLowDigits(v, base, k);
      ReversedLowDigits(w, base, k);
      ReversedTwice(v % p, base, k);
      ReversedTwice(w % p, base, k);
      SameResidue(start, p, v, w);
    }
  }

  // ---- The rotated benchmark rays ----

  function Fract(x: real): (r: real)
    ensures x >= 0.0 ==> 0.0 <= r < 1.0
  {
    if x >= 0.0 then x - x.Floor as real else x + (-x).Floor as real
  }

  const RotationX := 0.754_877_666_246_692_7
  const RotationY := 0.569_840_290_998_053_2

  /** Rotating by a constant keeps distinct points distinct. */
  lemma RotationInjective(x: real, y: real, c: real)
    requires 0.0 <= x < 1.0 && 0.0 <= y < 1.0 && c >= 0.0
    requires Fract(x + c) == Fract(y + c)
    ensures x == y
  {
    assert x - y == ((x + c).Floor - (y + c).Floor) as real;
  }

  function MulAdd(a: real, b: real, c: real): real {
    a * b + c
  }

  datatype Vec3 = Vec3(x: real, y: real, z: real)

  datatype QueryRay = QueryRay(origin: Vec3, direction: Vec3, minimum: real, maximum: real)

  datatype Point = Point(x: real, y: real)

  /** Point `index` of the sequence before rotation. */
  function UnitPoint(index: nat): Point {
    Point(Radical(index + 1, 2), Radical(index + 1, 3))
  }

  /** `diagonal` stands for the length of the extent, raised to at least one. */
  function BenchmarkRay(minimum: Vec3, maximum: Vec3, diagonal: real, index: nat): QueryRay {
    var x := Fract(UnitPoint(index).x + RotationX);
    var y := Fract(UnitPoint(index).y + RotationY);
    QueryRay(Vec3(MulAdd(maximum.x - minimum.x, x, minimum.x), MulAdd(maximum.y - minimum.y, y, minimum.y),
                  maximum.z + diagonal * 0.25 + 0.001),
             Vec3(0.0, 0.0, -1.0), 0.0, (maximum.z - minimum.z) + diagonal * 0.5 + 0.002)
  }

  function BenchmarkRays(minimum: Vec3, maximum: Vec3, diagonal: real, count: nat): seq<QueryRay> {
    seq(count, index requires 0 <= index < count => BenchmarkRay(minimum, maximum, diagonal, index))
  }

  lemma Within(low: real, extent: real, t: real)
    requires extent >= 0.0 && 0.0 <= t < 1.0
    ensures low <= MulAdd(extent, t, low) <= low + extent
    ensures extent > 0.0 ==> MulAdd(extent, t, low) < low + extent
  {
    RealMonotone(0.0, t, extent);
    RealMonotone(t, 1.0, extent);
  }

  /** From a point over the footprint, above the box, straight down past its floor. On an axis
      with extent the far edge is never met. */
  predicate CrossesTheBox(minimum: Vec3, maximum: Vec3, ray: QueryRay) {
    && minimum.x <= ray.origin.x <= maximum.x && (minimum.x < maximum.x ==> ray.origin.x < maximum.x)
    && minimum.y <= ray.origin.y <= maximum.y && (minimum.y < maximum.y ==> ray.origin.y < maximum.y)
    && ray.direction == Vec3(0.0, 0.0, -1.0) && ray.minimum == 0.0
    && ray.origin.z > maximum.z && ray.origin.z - ray.maximum < minimum.z
  }

  /** Each ray starts above the box, over its footprint, and reaches past its floor; boxes may
      be flat in any direction. */
  lemma RaysCrossTheBox(minimum: Vec3, maximum: Vec3, diagonal: real, count: nat)
    requires minimum.x <= maximum.x && minimum.y <= maximum.y && minimum.z <= maximum.z && diagonal >= 1.0
    ensures forall ray :: ray in BenchmarkRays(minimum, maximum, diagonal, count)
                          ==> CrossesTheBox(minimum, maximum, ray)
  {
    forall index: nat | index < count
      ensures CrossesTheBox(minimum, maximum, BenchmarkRay(minimum, maximum, diagonal, index))
    {
      RayCrosses(minimum, maximum, diagonal, index);
    }
  }

  lemma RayCrosses(minimum: Vec3, maximum: Vec3, diagonal: real, index: nat)
    requires minimum.x <= maximum.x && minimum.y <= maximum.y && minimum.z <= maximum.z && diagonal >= 1.0
    ensures CrossesTheBox(minimum, maximum, BenchmarkRay(minimum, maximum, diagonal, index))
  {
    hide Radical, Fract, MulAdd;
    RadicalRange(index + 1, 2);
    RadicalRange(index + 1, 3);
    var x, y := Fract(Radical(index + 1, 2) + RotationX), Fract(Radical(index + 1, 3) + RotationY);
    Within(minimum.x, maximum.x - minimum.x, x);
    Within(minimum.y, maximum.y - minimum.y, y);
  }

  /** On an axis with extent no two rays of a corpus share a coordinate, however many there
      are. */
  lemma RaysDistinct(minimum: Vec3, maximum: Vec3, diagonal: real, count: nat, i: nat, j: nat)
    requires i < count && j < count && i != j
    ensures var rays := BenchmarkRays(minimum, maximum, diagonal, count);
      && |rays| == count
      && (minimum.x < maximum.x ==> rays[i].origin.x != rays[j].origin.x)
      && (minimum.y < maximum.y ==> rays[i].origin.y != rays[j].origin.y)
  {
    hide Radical, Fract, MulAdd;
    if minimum.x < maximum.x { AxisDistinct(minimum.x, maximum.x - minimum.x, i, j, 2, RotationX); }
    if minimum.y < maximum.y { AxisDistinct(minimum.y, maximum.y - minimum.y, i, j, 3, RotationY); }
  }

  lemma AxisDistinct(low: real, extent: real, i: nat, j: nat, base: nat, c: real)
    requires base >= 2 && c >= 0.0 && i != j && extent > 0.0
    ensures MulAdd(extent, Fract(Radical(i + 1, base) + c), low)
         != MulAdd(extent, Fract(Radical(j + 1, base) + c), low)
  {
    hide Radical, Fract, MulAdd;
    RotatedDistinct(i, j, base, c);
    ScaledDistinct(extent, Fract(Radical(i + 1, base) + c), Fract(Radical(j + 1, base) + c), low);
  }

  lemma ScaledDistinct(extent: real, s: real, t: real, low: real)
    requires extent > 0.0 && s != t
    ensures MulAdd(extent, s, low) != MulAdd(extent, t, low)
  {
    RealMonotone(s, t, extent);
    RealMonotone(t, s, extent);
  }

  lemma RotatedDistinct(i: nat, j: nat, base: nat, c: real)
    requires base >= 2 && c >= 0.0 && i != j
    ensures Fract(Radical(i + 1, base) + c) != Fract(Radical(j + 1, base) + c)
  {
    RadicalRange(i + 1, base);
    RadicalRange(j + 1, base);
    if Fract(Radical(i + 1, base) + c) == Fract(Radical(j + 1, base) + c) {
      RotationInjective(Radical(i + 1, base), Radical(j + 1, base), c);
      DistinctIndices(i + 1, j + 1, base);
      assert false;
    }
  }
}
