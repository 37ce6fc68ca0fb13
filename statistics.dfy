/** Exact sample statistics over a sequence of decimal scores, as the engine of
    the second version asks `statistics.stdev` for them: the sum of squared
    deviations from the mean, divided by one less than the number of scores. */
module Statistics {

  /** Multiplication, kept behind a function of two arguments so that the
      squares below stay terms the prover reasons about through the lemmas here. */
  function Product(a: real, b: real): real {
    a * b
  }

  function Sum(xs: seq<real>): real {
    if xs == [] then 0.0 else xs[0] + Sum(xs[1..])
  }

  function Mean(xs: seq<real>): real
    requires xs != []
  {
    Sum(xs) / (|xs| as real)
  }

  /** The sum of the squared distances of the scores from `m`. */
  function SquaredDeviations(xs: seq<real>, m: real): real {
    if xs == [] then 0.0 else Product(xs[0] - m, xs[0] - m) + SquaredDeviations(xs[1..], m)
  }

  /** Sample variance with Bessel's correction (denominator N - 1). */
  function SampleVariance(xs: seq<real>): real
    requires |xs| >= 2
  {
    SquaredDeviations(xs, Mean(xs)) / (|xs| as real - 1.0)
  }

  lemma ProductPositive(a: real, b: real)
    requires a > 0.0 && b > 0.0
    ensures Product(a, b) > 0.0
  {
  }

  /** A square is never negative, and is zero only for zero. */
  lemma SquarePositive(d: real)
    ensures Product(d, d) >= 0.0
    ensures d != 0.0 ==> Product(d, d) > 0.0
  {
    if d > 0.0 {
      ProductPositive(d, d);
    } else if d < 0.0 {
      ProductPositive(-d, -d);
      assert Product(-d, -d) == Product(d, d);
    }
  }

  lemma {:induction false} SquaredDeviationsNonNegative(xs: seq<real>, m: real)
    ensures SquaredDeviations(xs, m) >= 0.0
  {
    if xs != [] {
      SquaredDeviationsNonNegative(xs[1..], m);
      SquarePositive(xs[0] - m);
    }
  }

  /** The squared deviations from `m` vanish exactly when every score is `m`. */
  lemma {:induction false} SquaredDeviationsZeroIff(xs: seq<real>, m: real)
    ensures SquaredDeviations(xs, m) == 0.0 <==> forall i :: 0 <= i < |xs| ==> xs[i] == m
  {
    if xs != [] {
      var rest := xs[1..];
      SquaredDeviationsZeroIff(rest, m);
      SquaredDeviationsNonNegative(rest, m);
      SquarePositive(xs[0] - m);
      assert forall i :: 0 <= i < |rest| ==> rest[i] == xs[i + 1];
      if !(forall i :: 0 <= i < |xs| ==> xs[i] == m) {
        var i :| 0 <= i < |xs| && xs[i] != m;
        if i > 0 {
          assert rest[i - 1] == xs[i];
        }
      }
    }
  }

  lemma {:induction false} SumOfConstant(xs: seq<real>, c: real)
    requires forall i :: 0 <= i < |xs| ==> xs[i] == c
    ensures Sum(xs) == (|xs| as real) * c
  {
    if xs != [] {
      assert forall i :: 0 <= i < |xs| - 1 ==> xs[1..][i] == xs[i + 1];
      SumOfConstant(xs[1..], c);
    }
  }

  lemma SampleVarianceNonNegative(xs: seq<real>)
    requires |xs| >= 2
    ensures SampleVariance(xs) >= 0.0
  {
    SquaredDeviationsNonNegative(xs, Mean(xs));
  }

  /** The sample variance is zero exactly when all scores are equal. */
  lemma SampleVarianceZeroIff(xs: seq<real>)
    requires |xs| >= 2
    ensures SampleVariance(xs) == 0.0 <==> forall i, j :: 0 <= i < |xs| && 0 <= j < |xs| ==> xs[i] == xs[j]
  {
    var m := Mean(xs);
    SquaredDeviationsZeroIff(xs, m);
    if forall i, j :: 0 <= i < |xs| && 0 <= j < |xs| ==> xs[i] == xs[j] {
      SumOfConstant(xs, xs[0]);
      assert m == xs[0];
    }
  }

  /** For two scores the sample variance is half their squared difference. */
  lemma SampleVarianceOfPair(a: real, b: real)
    ensures SampleVariance([a, b]) == Product(a - b, a - b) / 2.0
  {
    var xs := [a, b];
    assert xs[1..] == [b] && xs[1..][1..] == [];
    assert Sum([b]) == b;
    assert Sum(xs) == a + b;
    var m := (a + b) / 2.0;
    assert Mean(xs) == m;
    assert SquaredDeviations([b], m) == Product(b - m, b - m) + SquaredDeviations([], m);
    assert SquaredDeviations(xs, m) == Product(a - m, a - m) + SquaredDeviations([b], m);
    assert a - m == (a - b) / 2.0 && b - m == -(a - b) / 2.0;
  }

  /** `s` is the standard deviation belonging to variance `v`: its non-negative square root. */
  predicate IsSquareRoot(s: real, v: real) {
    s >= 0.0 && Product(s, s) == v
  }

  /** Squaring is strictly increasing on the non-negative reals. */
  lemma SquareIncreasing(a: real, b: real)
    requires 0.0 <= a < b
    ensures Product(a, a) < Product(b, b)
  {
    ProductPositive(b - a, b + a);
    assert Product(b - a, b + a) == Product(b, b) - Product(a, a);
  }

  /** A variance has at most one standard deviation, so specifying the result
      by `IsSquareRoot` pins it down. */
  lemma SquareRootUnique(s1: real, s2: real, v: real)
    requires IsSquareRoot(s1, v) && IsSquareRoot(s2, v)
    ensures s1 == s2
  {
    if s1 < s2 {
      SquareIncreasing(s1, s2);
    } else if s2 < s1 {
      SquareIncreasing(s2, s1);
    }
  }

  /** The standard deviation is zero exactly when the variance is. */
  lemma SquareRootZeroIff(s: real, v: real)
    requires IsSquareRoot(s, v)
    ensures s == 0.0 <==> v == 0.0
  {
    SquarePositive(s);
  }
}
