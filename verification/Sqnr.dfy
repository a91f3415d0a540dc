/** `diagnostics/sqnr.py` over the reals: energies, cosine, error bounds and who is to blame for an error. */
module Sqnr {
  import opened Common
  import opened Tensors

  type Vector = seq<real>

  function Dot(a: Vector, b: Vector): real
    requires |a| == |b|
  {
    if a == [] then 0.0 else a[0] * b[0] + Dot(a[1..], b[1..])
  }

  function Energy(a: Vector): real {
    Dot(a, a)
  }

  function Difference(a: Vector, b: Vector): (d: Vector)
    requires |a| == |b|
    ensures |d| == |a| && forall i :: 0 <= i < |a| ==> d[i] == a[i] - b[i]
  {
    if a == [] then [] else [a[0] - b[0]] + Difference(a[1..], b[1..])
  }

  function Noise(a: Vector, b: Vector): real
    requires |a| == |b|
  {
    Energy(Difference(a, b))
  }

  function Abs(x: real): real {
    if x < 0.0 then -x else x
  }

  function MaxAbs(d: Vector): (m: real)
    requires d != []
    ensures m >= 0.0
    ensures forall i :: 0 <= i < |d| ==> Abs(d[i]) <= m
    ensures exists i :: 0 <= i < |d| && Abs(d[i]) == m
  {
    if |d| == 1 then Abs(d[0])
    else
      var rest := MaxAbs(d[1..]);
      assert exists i :: 0 <= i < |d[1..]| && Abs(d[1..][i]) == rest;
      assert forall i :: 0 <= i < |d[1..]| ==> d[1..][i] == d[i + 1];
      if Abs(d[0]) > rest then Abs(d[0]) else rest
  }

  // ---------------------------------------------------------- inequalities

  // Products are named by a variable of their own: the solver treats a name far better than a product.

  lemma PositiveProduct(x: real, y: real, p: real)
    requires x > 0.0 && y > 0.0 && p == x * y
    ensures p > 0.0
  {
  }

  lemma ProductIsNonNegative(x: real, y: real, p: real)
    requires x >= 0.0 && y >= 0.0 && p == x * y
    ensures p >= 0.0
  {
  }

  lemma SquareIsNonNegative(x: real, square: real)
    requires square == x * x
    ensures square >= 0.0 && (x != 0.0 ==> square > 0.0)
  {
    if x > 0.0 {
      PositiveProduct(x, x, square);
    } else if x < 0.0 {
      PositiveProduct(-x, -x, square);
    }
  }

  lemma ZeroSum(x: real, square: real, rest: real)
    requires square == x * x && rest >= 0.0 && square + rest == 0.0
    ensures x == 0.0 && rest == 0.0
  {
    SquareIsNonNegative(x, square);
  }

  lemma {:induction false} EnergyIsNonNegative(a: Vector)
    ensures Energy(a) >= 0.0
    ensures Energy(a) == 0.0 <==> forall i :: 0 <= i < |a| ==> a[i] == 0.0
  {
    if a != [] {
      SquareIsNonNegative(a[0], a[0] * a[0]);
      EnergyIsNonNegative(a[1..]);
      assert forall i :: 0 <= i < |a[1..]| ==> a[1..][i] == a[i + 1];
      if Energy(a) == 0.0 {
        ZeroSum(a[0], a[0] * a[0], Energy(a[1..]));
        forall i | 0 <= i < |a| ensures a[i] == 0.0 {
          if i > 0 { assert a[1..][i - 1] == 0.0; }
        }
      }
    }
  }

  /** The noise is zero exactly when the tensors are equal. */
  lemma NoNoiseMeansEqual(a: Vector, b: Vector)
    requires |a| == |b|
    ensures Noise(a, b) >= 0.0 && (Noise(a, b) == 0.0 <==> a == b)
  {
    EnergyIsNonNegative(Difference(a, b));
    if Noise(a, b) == 0.0 {
      forall i | 0 <= i < |a| ensures a[i] == b[i] {
        assert Difference(a, b)[i] == 0.0;
      }
    }
  }

  /** `a - t * b`. */
  function Shifted(a: Vector, b: Vector, t: real): (r: Vector)
    requires |a| == |b|
    ensures |r| == |a|
  {
    if a == [] then [] else [a[0] - t * b[0]] + Shifted(a[1..], b[1..], t)
  }

  lemma Expand(x: real, y: real, t: real)
    ensures (x - t * y) * (x - t * y) == x * x - 2.0 * t * (x * y) + t * t * (y * y)
  {
  }

  lemma Distribute(t: real, a: real, b: real, c: real, d: real, e: real, f: real)
    ensures (a - 2.0 * t * b + t * t * c) + (d - 2.0 * t * e + t * t * f)
            == (a + d) - 2.0 * t * (b + e) + t * t * (c + f)
  {
  }

  lemma {:induction false} ShiftedEnergy(a: Vector, b: Vector, t: real)
    requires |a| == |b|
    ensures Energy(Shifted(a, b, t)) == Energy(a) - 2.0 * t * Dot(a, b) + t * t * Energy(b)
  {
    if a != [] {
      var r := Shifted(a, b, t);
      ShiftedEnergy(a[1..], b[1..], t);
      assert r[0] == a[0] - t * b[0] && r[1..] == Shifted(a[1..], b[1..], t);
      Expand(a[0], b[0], t);
      Distribute(t, a[0] * a[0], a[0] * b[0], b[0] * b[0], Energy(a[1..]), Dot(a[1..], b[1..]), Energy(b[1..]));
    }
  }

  lemma {:induction false} DotWithZero(a: Vector, b: Vector)
    requires |a| == |b| && forall i :: 0 <= i < |b| ==> b[i] == 0.0
    ensures Dot(a, b) == 0.0
  {
    if a != [] { DotWithZero(a[1..], b[1..]); }
  }

  /** A quadratic that is never negative: its value at `t` bounds the discriminant. */
  lemma Discriminant(ea: real, d: real, eb: real, t: real)
    requires eb > 0.0 && t * eb == d && ea - 2.0 * t * d + t * t * eb >= 0.0
    ensures d * d <= ea * eb
  {
    assert t * t * eb == t * d by { assert t * t * eb == t * (t * eb); }
    assert ea - t * d >= 0.0;
    ProductIsNonNegative(ea - t * d, eb, (ea - t * d) * eb);
    assert (ea - t * d) * eb == ea * eb - d * (t * eb);
  }

  lemma ShiftedIsNonNegative(a: Vector, b: Vector, t: real)
    requires |a| == |b|
    ensures Energy(a) - 2.0 * t * Dot(a, b) + t * t * Energy(b) >= 0.0
  {
    EnergyIsNonNegative(Shifted(a, b, t));
    ShiftedEnergy(a, b, t);
  }

  lemma CauchySchwarzWith(a: Vector, b: Vector, ea: real, d: real, eb: real, t: real)
    requires |a| == |b| && ea == Energy(a) && d == Dot(a, b) && eb == Energy(b)
    requires eb > 0.0 && t * eb == d
    ensures d * d <= ea * eb
  {
    assert ea - 2.0 * t * d + t * t * eb >= 0.0 by { ShiftedIsNonNegative(a, b, t); }
    Discriminant(ea, d, eb, t);
  }

  lemma Quotient(x: real, y: real, q: real)
    requires y > 0.0 && q == x / y
    ensures q * y == x && (x > 0.0 ==> q > 0.0) && (x >= 0.0 ==> q >= 0.0)
  {
    assert q * y == x;
    if q < 0.0 { PositiveProduct(-q, y, -x); }
  }

  lemma TakeQuotient(x: real, y: real) returns (q: real)
    requires y > 0.0
    ensures q * y == x
  {
    q := x / y;
    Quotient(x, y, q);
  }

  /** The squared dot product never exceeds the product of the energies. */
  lemma CauchySchwarz(a: Vector, b: Vector)
    requires |a| == |b|
    ensures Dot(a, b) * Dot(a, b) <= Energy(a) * Energy(b)
  {
    EnergyIsNonNegative(b);
    if Energy(b) == 0.0 {
      DotWithZero(a, b);
    } else {
      var t := TakeQuotient(Dot(a, b), Energy(b));
      CauchySchwarzWith(a, b, Energy(a), Dot(a, b), Energy(b), t);
    }
  }

  lemma SquareOrder(x: real, y: real, xx: real, yy: real)
    requires x >= 0.0 && y >= 0.0 && xx == x * x && yy == y * y
    ensures x <= y <==> xx <= yy
  {
    var p := (y - x) * (y + x);
    assert p == yy - xx;
    if x <= y {
      ProductIsNonNegative(y - x, y + x, p);
    } else {
      PositiveProduct(x - y, y + x, -p);
    }
  }

  /** `x` added up `n` times. */
  function Times(n: nat, x: real): real {
    if n == 0 then 0.0 else Times(n - 1, x) + x
  }

  lemma {:induction false} TimesIsProduct(n: nat, x: real)
    ensures Times(n, x) == n as real * x
  {
    if n > 0 { TimesIsProduct(n - 1, x); }
  }

  lemma {:induction false} EnergyAtMost(d: Vector, bound: real)
    requires forall i :: 0 <= i < |d| ==> d[i] * d[i] <= bound
    ensures Energy(d) <= Times(|d|, bound)
  {
    if d != [] {
      var rest := d[1..];
      forall i | 0 <= i < |rest| ensures rest[i] * rest[i] <= bound {
        assert rest[i] == d[i + 1];
      }
      EnergyAtMost(rest, bound);
    }
  }

  lemma {:induction false} EnergyCoversElement(d: Vector, i: nat)
    requires i < |d|
    ensures d[i] * d[i] <= Energy(d)
  {
    SquareIsNonNegative(d[0], d[0] * d[0]);
    EnergyIsNonNegative(d[1..]);
    if i > 0 {
      EnergyCoversElement(d[1..], i - 1);
      assert d[1..][i - 1] == d[i];
    }
  }

  lemma AbsSquare(x: real)
    ensures Abs(x) * Abs(x) == x * x && Abs(x) >= 0.0
  {
  }

  lemma Peak(d: Vector) returns (i: nat)
    requires d != []
    ensures i < |d| && Abs(d[i]) == MaxAbs(d)
  {
    i :| 0 <= i < |d| && Abs(d[i]) == MaxAbs(d);
  }

  lemma SquaresAtMost(d: Vector, m: real)
    requires m >= 0.0 && forall i :: 0 <= i < |d| ==> Abs(d[i]) <= m
    ensures forall i :: 0 <= i < |d| ==> d[i] * d[i] <= m * m
  {
    forall i | 0 <= i < |d| ensures d[i] * d[i] <= m * m {
      AbsSquare(d[i]);
      SquareOrder(Abs(d[i]), m, Abs(d[i]) * Abs(d[i]), m * m);
    }
  }

  lemma PeakSquare(d: Vector, i: nat, m: real)
    requires i < |d| && Abs(d[i]) == m
    ensures m * m <= Energy(d)
  {
    EnergyCoversElement(d, i);
    AbsSquare(d[i]);
  }

  lemma EnergyBounds(d: Vector, m: real)
    requires d != [] && m == MaxAbs(d)
    ensures m * m <= Energy(d) <= Times(|d|, m * m)
  {
    var i := Peak(d);
    PeakSquare(d, i, m);
    SquaresAtMost(d, m);
    EnergyAtMost(d, m * m);
  }

  /** The largest error bounds the noise from both sides. */
  lemma NoiseBounds(a: Vector, b: Vector, m: real)
    requires |a| == |b| > 0 && m == MaxAbs(Difference(a, b))
    ensures m * m <= Noise(a, b) <= Times(|a|, m * m)
  {
    EnergyBounds(Difference(a, b), m);
  }

  // --------------------------------------------------------------- quality

  datatype Failure = BadFloor | ShapeMismatch | EmptyTensor

  /** The ratio stands for its decibels, `10 * log10(ratio)`. */
  datatype Sqnr = Undefined | Infinite | Ratio(ratio: real)

  datatype Status = UndefinedEnergy | Exact | Measured

  datatype Quality = Quality(sqnr: Sqnr, status: Status, numel: nat, referenceEnergy: real, noiseEnergy: real,
                             rmse: real, maxAbsError: real, cosine: real, normalizedRmse: Option<real>)

  type Tensor = Array<real>

  /** `_validated_pair`: why two tensors cannot be compared. */
  function PairRefusal(reference: Tensor, actual: Tensor): Option<Failure> {
    if reference.shape != actual.shape then Some(ShapeMismatch)
    else if Size(reference.shape) == 0 then Some(EmptyTensor)
    else None
  }

  function SqnrOf(referenceEnergy: real, noise: real, floor: real): Sqnr {
    if referenceEnergy <= floor then Undefined
    else if noise == 0.0 then Infinite
    else Ratio(referenceEnergy / noise)
  }

  /** `compute_sqnr`. */
  function ComputeSqnr(reference: Tensor, actual: Tensor, floor: real): Result<Sqnr, Failure>
    requires reference.Valid() && actual.Valid()
  {
    if floor < 0.0 then Err(BadFloor)
    else if PairRefusal(reference, actual).Some? then Err(PairRefusal(reference, actual).value)
    else Ok(SqnrOf(Energy(reference.data), Noise(reference.data, actual.data), floor))
  }

  /** The square root on non-negative numbers. */
  ghost predicate IsRoot(sqrt: real -> real) {
    forall x | x >= 0.0 :: RootAt(sqrt, x)
  }

  predicate RootAt(sqrt: real -> real, x: real) {
    sqrt(x) >= 0.0 && sqrt(x) * sqrt(x) == x
  }

  function Clamp(x: real): real {
    var low := if x < 1.0 then x else 1.0;
    if low < -1.0 then -1.0 else low
  }

  function CosineOf(dot: real, ea: real, eb: real, root: real): real
    requires ea != 0.0 && eb != 0.0 ==> root != 0.0
  {
    if ea == 0.0 && eb == 0.0 then 1.0
    else if ea == 0.0 || eb == 0.0 then 0.0
    else Clamp(dot / root)
  }

  lemma RootOfPositive(sqrt: real -> real, x: real, y: real, xy: real)
    requires IsRoot(sqrt) && x > 0.0 && y > 0.0 && xy == x * y
    ensures var root := sqrt(xy); root > 0.0 && root * root == xy
  {
    PositiveProduct(x, y, xy);
    assert RootAt(sqrt, xy);
  }

  function Product(x: real, y: real): real {
    x * y
  }

  function CosineFor(a: Vector, b: Vector, sqrt: real -> real): real
    requires |a| == |b| && IsRoot(sqrt)
  {
    var ea, eb := Energy(a), Energy(b);
    EnergyIsNonNegative(a);
    EnergyIsNonNegative(b);
    assert ea != 0.0 && eb != 0.0 ==> sqrt(Product(ea, eb)) != 0.0 by {
      if ea != 0.0 && eb != 0.0 { RootOfPositive(sqrt, ea, eb, Product(ea, eb)); }
    }
    CosineOf(Dot(a, b), ea, eb, sqrt(Product(ea, eb)))
  }

  function RmseOf(a: Vector, b: Vector, sqrt: real -> real): real
    requires |a| == |b| > 0
  {
    sqrt(Noise(a, b) / |a| as real)
  }

  /** `compute_tensor_quality` on tensors that can be compared, for a given square root. */
  function QualityOf(a: Vector, b: Vector, floor: real, sqrt: real -> real): Quality
    requires |a| == |b| > 0 && floor >= 0.0 && IsRoot(sqrt)
  {
    var ea, noise := Energy(a), Noise(a, b);
    Quality(SqnrOf(ea, noise, floor), StatusOf(ea, noise, floor), |a|, ea, noise, RmseOf(a, b, sqrt),
            MaxAbs(Difference(a, b)), CosineFor(a, b, sqrt),
            if ea <= floor then None else if noise == 0.0 then Some(0.0) else Some(sqrt(noise / ea)))
  }

  function StatusOf(ea: real, noise: real, floor: real): Status {
    if ea <= floor then UndefinedEnergy else if noise == 0.0 then Exact else Measured
  }

  /** `compute_tensor_quality`. */
  function Compare(reference: Tensor, actual: Tensor, floor: real, sqrt: real -> real): Result<Quality, Failure>
    requires reference.Valid() && actual.Valid() && IsRoot(sqrt)
  {
    if PairRefusal(reference, actual).Some? then Err(PairRefusal(reference, actual).value)
    else if floor < 0.0 then Err(BadFloor)
    else Ok(QualityOf(reference.data, actual.data, floor, sqrt))
  }

  /** Two tensors are compared exactly when they have one shape with something in it, and the floor is no less than zero. */
  predicate Comparable(reference: Tensor, actual: Tensor, floor: real) {
    reference.shape == actual.shape && reference.data != [] && floor >= 0.0
  }

  lemma ComparesExactlyWhen(reference: Tensor, actual: Tensor, floor: real, sqrt: real -> real)
    requires reference.Valid() && actual.Valid() && IsRoot(sqrt)
    ensures Compare(reference, actual, floor, sqrt).Ok? <==> Comparable(reference, actual, floor)
    ensures ComputeSqnr(reference, actual, floor).Ok? <==> Comparable(reference, actual, floor)
  {
  }

  /** Both entry points accept the same pairs and give the same SQNR; they can only differ in which error comes first. */
  lemma SameSqnrEitherWay(reference: Tensor, actual: Tensor, floor: real, sqrt: real -> real)
    requires reference.Valid() && actual.Valid() && IsRoot(sqrt)
    ensures Compare(reference, actual, floor, sqrt).Ok? <==> ComputeSqnr(reference, actual, floor).Ok?
    ensures Compare(reference, actual, floor, sqrt).Ok? ==>
              ComputeSqnr(reference, actual, floor) == Ok(Compare(reference, actual, floor, sqrt).value.sqnr)
  {
  }

  // -------------------------------------------------- what the numbers mean

  /** Exact is exactly infinite SQNR, and exactly equal tensors above the floor. */
  lemma StatusMeans(a: Vector, b: Vector, floor: real, sqrt: real -> real)
    requires |a| == |b| > 0 && floor >= 0.0 && IsRoot(sqrt)
    ensures var q := QualityOf(a, b, floor, sqrt);
            && (q.status == Exact <==> q.sqnr == Infinite)
            && (q.status == Exact <==> a == b && q.referenceEnergy > floor)
            && (q.status == UndefinedEnergy <==> q.sqnr == Undefined)
            && (q.status == Measured <==> q.sqnr.Ratio?)
            && (q.status == Exact ==> q.referenceEnergy > 0.0 && q.normalizedRmse == Some(0.0))
            && (q.normalizedRmse.None? <==> q.status == UndefinedEnergy)
  {
    NoNoiseMeansEqual(a, b);
  }

  /** A measured ratio is positive and multiplies the noise back to the reference energy. */
  lemma RatioMeans(a: Vector, b: Vector, floor: real, sqrt: real -> real, energy: real, noise: real)
    requires |a| == |b| > 0 && floor >= 0.0 && IsRoot(sqrt)
    requires energy == Energy(a) && noise == Noise(a, b)
    requires QualityOf(a, b, floor, sqrt).status == Measured
    ensures var ratio := QualityOf(a, b, floor, sqrt).sqnr.ratio;
            ratio > 0.0 && ratio * noise == energy
  {
    NoNoiseMeansEqual(a, b);
    Quotient(energy, noise, energy / noise);
  }

  lemma RootMeansSquare(rmse: real, mean: real, noise: real, n: nat, m: real, mm: real)
    requires n > 0 && noise >= 0.0 && m >= 0.0 && mm == m * m && noise <= Times(n, mm)
    requires noise == Times(n, mean) && rmse >= 0.0 && mean == rmse * rmse
    ensures rmse <= m
  {
    TimesOrder(n, mean, mm);
    SquareOrder(rmse, m, mean, mm);
  }

  lemma {:induction false} TimesOrder(n: nat, x: real, y: real)
    requires n > 0
    ensures x <= y <==> Times(n, x) <= Times(n, y)
  {
    if n > 1 { TimesOrder(n - 1, x, y); }
  }

  lemma RootOf(sqrt: real -> real, x: real, root: real)
    requires IsRoot(sqrt) && x >= 0.0 && root == sqrt(x)
    ensures root >= 0.0 && root * root == x
  {
    assert RootAt(sqrt, x);
  }

  lemma MeanIs(noise: real, n: nat, mean: real)
    requires n > 0 && noise >= 0.0 && mean == noise / n as real
    ensures mean >= 0.0 && Times(n, mean) == noise
  {
    Quotient(noise, n as real, mean);
    TimesIsProduct(n, mean);
  }

  lemma RmseOfNoise(a: Vector, b: Vector, rmse: real, mean: real, m: real, noise: real)
    requires |a| == |b| > 0 && noise == Noise(a, b) && m == MaxAbs(Difference(a, b))
    requires Times(|a|, mean) == noise && rmse >= 0.0 && mean == rmse * rmse
    ensures rmse <= m
  {
    NoNoiseMeansEqual(a, b);
    NoiseBounds(a, b, m);
    RootMeansSquare(rmse, mean, noise, |a|, m, m * m);
  }

  /** The root mean square error is the root of the mean noise and never exceeds the largest error. */
  lemma RmseMeans(a: Vector, b: Vector, sqrt: real -> real, rmse: real, mean: real, noise: real)
    requires |a| == |b| > 0 && IsRoot(sqrt)
    requires rmse == RmseOf(a, b, sqrt) && noise == Noise(a, b) && mean == noise / |a| as real
    ensures 0.0 <= rmse <= MaxAbs(Difference(a, b)) && rmse * rmse == mean && Times(|a|, mean) == noise
  {
    NoNoiseMeansEqual(a, b);
    MeanIs(noise, |a|, mean);
    RootOf(sqrt, mean, rmse);
    RmseOfNoise(a, b, rmse, mean, MaxAbs(Difference(a, b)), noise);
  }

  lemma QuotientIsSmall(d: real, root: real, c: real, dd: real, rr: real)
    requires root > 0.0 && c == d / root && dd == d * d && rr == root * root && dd <= rr
    ensures -1.0 <= c <= 1.0 && c * root == d
  {
    assert c * root == d;
    if c > 1.0 { QuotientAboveOne(c, root, d, dd, rr); }
    if c < -1.0 { QuotientAboveOne(-c, root, -d, dd, rr); }
  }

  lemma QuotientAboveOne(c: real, root: real, d: real, dd: real, rr: real)
    requires c > 1.0 && root > 0.0 && c * root == d && dd == d * d && rr == root * root
    ensures dd > rr
  {
    PositiveProduct(c - 1.0, root, d - root);
    SquareOrder(d, root, dd, rr);
  }

  lemma CosineIsBounded(cosine: real, d: real, ea: real, eb: real, root: real, dd: real, ab: real)
    requires ea > 0.0 && eb > 0.0 && root > 0.0 && dd == d * d && ab == root * root && dd <= ab
    requires cosine == CosineOf(d, ea, eb, root)
    ensures root > 0.0 && -1.0 <= cosine <= 1.0 && cosine == d / root && cosine * root == d
  {
    QuotientIsSmall(d, root, d / root, dd, ab);
  }

  lemma CosineForIs(a: Vector, b: Vector, sqrt: real -> real, d: real, ea: real, eb: real, root: real)
    requires |a| == |b| && IsRoot(sqrt) && d == Dot(a, b) && ea == Energy(a) && eb == Energy(b)
    requires root == sqrt(Product(ea, eb)) && root != 0.0
    ensures CosineFor(a, b, sqrt) == CosineOf(d, ea, eb, root)
  {
  }

  lemma ClampedQuotient(a: Vector, b: Vector, cosine: real, d: real, ea: real, eb: real, root: real, ab: real)
    requires |a| == |b| && d == Dot(a, b) && ea == Energy(a) && eb == Energy(b) && ea > 0.0 && eb > 0.0
    requires root > 0.0 && root * root == ab && ab == ea * eb && cosine == CosineOf(d, ea, eb, root)
    ensures root > 0.0 && -1.0 <= cosine <= 1.0 && cosine == d / root && cosine * root == d
  {
    CauchySchwarz(a, b);
    CosineIsBounded(cosine, d, ea, eb, root, d * d, ab);
  }

  lemma ClampedCosine(a: Vector, b: Vector, sqrt: real -> real, cosine: real, d: real, ea: real, eb: real, root: real,
                      ab: real)
    requires |a| == |b| && IsRoot(sqrt) && d == Dot(a, b) && ea == Energy(a) && eb == Energy(b) && ea > 0.0 && eb > 0.0
    requires ab == Product(ea, eb) && root == sqrt(ab) && root != 0.0 && cosine == CosineOf(d, ea, eb, root)
    ensures root > 0.0 && -1.0 <= cosine <= 1.0 && cosine == d / root && cosine * root == d
  {
    RootOfPositive(sqrt, ea, eb, ab);
    ClampedQuotient(a, b, cosine, d, ea, eb, root, ab);
  }

  lemma RootIsPositive(sqrt: real -> real, ea: real, eb: real, ab: real)
    requires IsRoot(sqrt) && ea > 0.0 && eb > 0.0 && ab == Product(ea, eb)
    ensures sqrt(ab) > 0.0
  {
    RootOfPositive(sqrt, ea, eb, ab);
  }

  /** For tensors with energy the clamp never acts: the cosine is the quotient itself, between -1 and 1. */
  lemma ClampNeverActs(a: Vector, b: Vector, sqrt: real -> real, cosine: real, d: real, ea: real, eb: real, root: real,
                       ab: real)
    requires |a| == |b| && IsRoot(sqrt) && cosine == CosineFor(a, b, sqrt)
    requires d == Dot(a, b) && ea == Energy(a) && eb == Energy(b) && ea > 0.0 && eb > 0.0
    requires ab == Product(ea, eb) && root == sqrt(ab)
    ensures root > 0.0 && -1.0 <= cosine <= 1.0 && cosine == d / root && cosine * root == d
  {
    RootIsPositive(sqrt, ea, eb, ab);
    CosineForIs(a, b, sqrt, d, ea, eb, root);
    ClampedCosine(a, b, sqrt, cosine, d, ea, eb, root, ab);
  }

  lemma QualityCarries(a: Vector, b: Vector, floor: real, sqrt: real -> real, q: Quality)
    requires |a| == |b| > 0 && floor >= 0.0 && IsRoot(sqrt) && q == QualityOf(a, b, floor, sqrt)
    ensures q.numel == |a| && q.referenceEnergy == Energy(a) && q.noiseEnergy == Noise(a, b)
    ensures q.rmse == RmseOf(a, b, sqrt) && q.maxAbsError == MaxAbs(Difference(a, b)) && q.cosine == CosineFor(a, b, sqrt)
  {
  }

  lemma CosineInRange(a: Vector, b: Vector, sqrt: real -> real)
    requires |a| == |b| && IsRoot(sqrt)
    ensures -1.0 <= CosineFor(a, b, sqrt) <= 1.0
  {
    var ea, eb := Energy(a), Energy(b);
    EnergyIsNonNegative(a);
    EnergyIsNonNegative(b);
    if ea != 0.0 && eb != 0.0 {
      RootIsPositive(sqrt, ea, eb, Product(ea, eb));
      ClampNeverActs(a, b, sqrt, CosineFor(a, b, sqrt), Dot(a, b), ea, eb, sqrt(Product(ea, eb)), Product(ea, eb));
    }
  }

  lemma PeakFits(a: Vector, b: Vector, m: real, mm: real)
    requires |a| == |b| > 0 && m == MaxAbs(Difference(a, b)) && mm == m * m
    ensures mm <= Noise(a, b) <= Times(|a|, mm)
  {
    NoiseBounds(a, b, m);
  }

  lemma RmseFits(a: Vector, b: Vector, sqrt: real -> real, rmse: real, mean: real)
    requires |a| == |b| > 0 && IsRoot(sqrt) && rmse == RmseOf(a, b, sqrt) && mean == rmse * rmse
    ensures 0.0 <= rmse <= MaxAbs(Difference(a, b)) && Times(|a|, mean) == Noise(a, b)
  {
    RmseMeans(a, b, sqrt, rmse, Noise(a, b) / |a| as real, Noise(a, b));
  }

  /** What the numbers of one comparison say about each other, whichever record carries them. */
  ghost predicate NumbersFit(n: nat, noise: real, rmse: real, peak: real, cosine: real) {
    && RootMeans(n, noise, rmse) && PeakBounds(n, noise, peak) && rmse <= peak && -1.0 <= cosine <= 1.0
  }

  /** The error energy is the squared root mean square error, added up over the elements. */
  predicate RootMeans(n: nat, noise: real, rmse: real) {
    rmse >= 0.0 && Times(n, rmse * rmse) == noise
  }

  /** The error energy lies between the squared largest error and that square for every element. */
  predicate PeakBounds(n: nat, noise: real, peak: real) {
    peak >= 0.0 && peak * peak <= noise <= Times(n, peak * peak)
  }

  lemma ComparedNumbersFit(a: Vector, b: Vector, sqrt: real -> real, noise: real, rmse: real, peak: real, cosine: real)
    requires |a| == |b| > 0 && IsRoot(sqrt) && noise == Noise(a, b) && rmse == RmseOf(a, b, sqrt)
    requires peak == MaxAbs(Difference(a, b)) && cosine == CosineFor(a, b, sqrt)
    ensures NumbersFit(|a|, noise, rmse, peak, cosine)
  {
    assert PeakBounds(|a|, noise, peak) by { PeakFits(a, b, peak, peak * peak); }
    assert RootMeans(|a|, noise, rmse) && rmse <= peak by { RmseFits(a, b, sqrt, rmse, rmse * rmse); }
    assert -1.0 <= cosine <= 1.0 by { CosineInRange(a, b, sqrt); }
  }

  /** The numbers of one report fit each other, and its error energy is zero exactly for equal tensors. */
  lemma QualityIsConsistent(a: Vector, b: Vector, floor: real, sqrt: real -> real, q: Quality)
    requires |a| == |b| > 0 && floor >= 0.0 && IsRoot(sqrt) && q == QualityOf(a, b, floor, sqrt)
    ensures q.numel == |a| && q.referenceEnergy >= 0.0 && (q.noiseEnergy == 0.0 <==> a == b)
    ensures NumbersFit(q.numel, q.noiseEnergy, q.rmse, q.maxAbsError, q.cosine)
  {
    QualityCarries(a, b, floor, sqrt, q);
    EnergyIsNonNegative(a);
    NoNoiseMeansEqual(a, b);
    ComparedNumbersFit(a, b, sqrt, q.noiseEnergy, q.rmse, q.maxAbsError, q.cosine);
  }

  /** On measured tensors the normalized error is the root of noise over reference energy. */
  lemma NormalizedMeans(a: Vector, b: Vector, floor: real, sqrt: real -> real, q: Quality, ea: real, noise: real, ratio: real)
    requires |a| == |b| > 0 && floor >= 0.0 && IsRoot(sqrt) && q == QualityOf(a, b, floor, sqrt) && q.status == Measured
    requires ea == Energy(a) && noise == Noise(a, b) && ratio == noise / ea
    ensures q.normalizedRmse.Some? && ratio * ea == noise
    ensures q.normalizedRmse.value >= 0.0 && q.normalizedRmse.value * q.normalizedRmse.value == ratio
  {
    NoNoiseMeansEqual(a, b);
    Quotient(noise, ea, ratio);
    RootOf(sqrt, ratio, q.normalizedRmse.value);
  }
}
