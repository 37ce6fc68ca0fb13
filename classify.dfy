/** The classification rule shared by both engines, and a reference definition
    of the two buckets as order-preserving filters of the batch. */
module Classify {

  /** A score at or below zero marks a request anomalous; any other score marks it typical. */
  predicate IsAnomalous(score: real) {
    score <= 0.0
  }

  /** The elements of `rs` whose paired score puts them on the `anomalous` side,
      in their original order. */
  function Select<T>(rs: seq<T>, xs: seq<real>, anomalous: bool): seq<T>
    requires |rs| == |xs|
  {
    if rs == [] then []
    else (if IsAnomalous(xs[0]) == anomalous then [rs[0]] else []) + Select(rs[1..], xs[1..], anomalous)
  }

  /** Selecting from a batch extended by one element extends the selection by
      that element exactly when its score is on the selected side. */
  lemma {:induction false} SelectSnoc<T>(rs: seq<T>, xs: seq<real>, r: T, x: real, anomalous: bool)
    requires |rs| == |xs|
    ensures Select(rs + [r], xs + [x], anomalous)
         == Select(rs, xs, anomalous) + (if IsAnomalous(x) == anomalous then [r] else [])
  {
    if rs == [] {
      assert rs + [r] == [r] && xs + [x] == [x];
    } else {
      assert (rs + [r])[1..] == rs[1..] + [r];
      assert (xs + [x])[1..] == xs[1..] + [x];
      SelectSnoc(rs[1..], xs[1..], r, x, anomalous);
    }
  }

  /** The two sides split the elements: together they hold every element exactly
      as often as the input does. */
  lemma {:induction false} SelectSplits<T>(rs: seq<T>, xs: seq<real>)
    requires |rs| == |xs|
    ensures |Select(rs, xs, false)| + |Select(rs, xs, true)| == |rs|
    ensures multiset(Select(rs, xs, false)) + multiset(Select(rs, xs, true)) == multiset(rs)
  {
    if rs != [] {
      SelectSplits(rs[1..], xs[1..]);
      assert rs == [rs[0]] + rs[1..];
    }
  }

  /** A side is empty exactly when no score falls on it. */
  lemma {:induction false} SelectEmptyIff<T>(rs: seq<T>, xs: seq<real>, anomalous: bool)
    requires |rs| == |xs|
    ensures Select(rs, xs, anomalous) == [] <==> forall i :: 0 <= i < |xs| ==> IsAnomalous(xs[i]) != anomalous
  {
    if rs != [] {
      SelectEmptyIff(rs[1..], xs[1..], anomalous);
      assert forall i :: 1 <= i < |xs| ==> xs[i] == xs[1..][i - 1];
    }
  }

  /** A side holds the whole input, in order, exactly when every score falls on it. */
  lemma {:induction false} SelectAllIff<T>(rs: seq<T>, xs: seq<real>, anomalous: bool)
    requires |rs| == |xs|
    ensures Select(rs, xs, anomalous) == rs <==> forall i :: 0 <= i < |xs| ==> IsAnomalous(xs[i]) == anomalous
  {
    if forall i :: 0 <= i < |xs| ==> IsAnomalous(xs[i]) == anomalous {
      SelectAllOnSide(rs, xs, anomalous);
    } else {
      if Select(rs, xs, anomalous) == rs {
        SelectSplits(rs, xs);
        assert |Select(rs, xs, !anomalous)| == 0;
        SelectEmptyIff(rs, xs, !anomalous);
        assert false;
      }
    }
  }

  lemma {:induction false} SelectAllOnSide<T>(rs: seq<T>, xs: seq<real>, anomalous: bool)
    requires |rs| == |xs|
    requires forall i :: 0 <= i < |xs| ==> IsAnomalous(xs[i]) == anomalous
    ensures Select(rs, xs, anomalous) == rs
  {
    if rs != [] {
      assert forall i :: 0 <= i < |xs| - 1 ==> xs[1..][i] == xs[i + 1];
      SelectAllOnSide(rs[1..], xs[1..], anomalous);
      assert rs == [rs[0]] + rs[1..];
    }
  }

  /** Scores alternating -1, +1, -1, ... over an even number of elements put
      half of them on each side. */
  lemma {:induction false} SelectAlternating<T>(rs: seq<T>, xs: seq<real>)
    requires |rs| == |xs| && |xs| % 2 == 0
    requires forall i :: 0 <= i < |xs| ==> xs[i] == if i % 2 == 0 then -1.0 else 1.0
    ensures |Select(rs, xs, true)| == |xs| / 2
    ensures |Select(rs, xs, false)| == |xs| / 2
  {
    if rs != [] {
      var rs', xs' := rs[2..], xs[2..];
      assert forall i :: 0 <= i < |xs'| ==> xs'[i] == xs[i + 2];
      SelectAlternating(rs', xs');
      assert rs[1..][1..] == rs' && xs[1..][1..] == xs';
      assert xs[0] == -1.0 && xs[1..][0] == 1.0;
    }
  }
}
