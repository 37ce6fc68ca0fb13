/** The stateless engine (first version): classify a batch, one request at a
    time and in order, into typical and anomalous requests by the sign of the
    score the scorer gives each one. */
module TaskOne {
  import opened Common
  import opened Classify

  /** The result of a successful call: both buckets, in the order the requests came. */
  datatype Evaluation = Evaluation(typical: seq<Request>, anomalous: seq<Request>)

  datatype Outcome = Ok(evaluation: Evaluation) | Err(error: Error)

  /** What processing the element at position k comes to: its score, or the
      exception raised there. Type check of the element, scorer call, type
      check of the score, and the comparison with zero, in that order. */
  datatype Verdict = Scored(value: real) | Fails(error: Error)

  function Check(batch: seq<Item>, scorer: Scorer, k: nat): Verdict
    requires k < |batch|
  {
    match batch[k]
    case NotARequest => Fails(RequestTypeError(k))
    case Req(r) =>
      match scorer(k, r)
      case Raised => Fails(ScorerRaised(k))
      case Returned(DecimalNaN) => Fails(InvalidOperation(k))
      case Returned(Decimal(x)) => Scored(x)
      case Returned(_) => Fails(ScoreTypeError(k))
  }

  /** The outcome once the loop has run over the first n elements. */
  function Run(batch: seq<Item>, scorer: Scorer, n: nat): Outcome
    requires n <= |batch|
  {
    if n == 0 then Ok(Evaluation([], []))
    else
      match Run(batch, scorer, n - 1)
      case Err(e) => Err(e)
      case Ok(ev) =>
        match Check(batch, scorer, n - 1)
        case Fails(e) => Err(e)
        case Scored(x) =>
          var r := batch[n - 1].request;
          if IsAnomalous(x) then Ok(ev.(anomalous := ev.anomalous + [r]))
          else Ok(ev.(typical := ev.typical + [r]))
  }

  /** How many times the loop has called the scorer after the first n elements. */
  function Calls(batch: seq<Item>, scorer: Scorer, n: nat): nat
    requires n <= |batch|
  {
    if n == 0 then 0
    else if Run(batch, scorer, n - 1).Ok? && batch[n - 1].Req? then Calls(batch, scorer, n - 1) + 1
    else Calls(batch, scorer, n - 1)
  }

  /** Every one of the first n elements is a request with a finite decimal score. */
  predicate Succeeds(batch: seq<Item>, scorer: Scorer, n: nat)
    requires n <= |batch|
  {
    forall k :: 0 <= k < n ==> batch[k].Req? && Check(batch, scorer, k).Scored?
  }

  /** The requests among the first n elements, all of which are requests. */
  function Requests(batch: seq<Item>, n: nat): seq<Request>
    requires n <= |batch|
    requires forall k :: 0 <= k < n ==> batch[k].Req?
  {
    seq(n, k requires 0 <= k < n => batch[k].request)
  }

  /** The scores of the first n elements, all of which were scored. */
  function Scores(batch: seq<Item>, scorer: Scorer, n: nat): seq<real>
    requires n <= |batch| && Succeeds(batch, scorer, n)
  {
    seq(n, k requires 0 <= k < n => Check(batch, scorer, k).value)
  }

  /** What the loop computes, against the reference definition: the call
      succeeds exactly when every element is a request with a finite decimal
      score; the buckets are then the requests filtered by the sign of their
      score, in input order; otherwise the error is the one raised at the first
      element that is not. */
  lemma RunMeaning(batch: seq<Item>, scorer: Scorer, n: nat)
    requires n <= |batch|
    ensures Run(batch, scorer, n).Ok? <==> Succeeds(batch, scorer, n)
    ensures Succeeds(batch, scorer, n) ==>
      Run(batch, scorer, n).evaluation
        == Evaluation(Select(Requests(batch, n), Scores(batch, scorer, n), false),
                      Select(Requests(batch, n), Scores(batch, scorer, n), true))
    ensures Run(batch, scorer, n).Err? ==>
      var p := Run(batch, scorer, n).error.position;
      p < n && Succeeds(batch, scorer, p) && Check(batch, scorer, p) == Fails(Run(batch, scorer, n).error)
  {
    RunFails(batch, scorer, n);
    if Succeeds(batch, scorer, n) {
      RunBuckets(batch, scorer, n);
    }
  }

  /** The call raises exactly when some element is not a request with a
      finite decimal score, and then at the first such element. */
  lemma {:induction false} RunFails(batch: seq<Item>, scorer: Scorer, n: nat)
    requires n <= |batch|
    ensures Run(batch, scorer, n).Ok? <==> Succeeds(batch, scorer, n)
    ensures Run(batch, scorer, n).Err? ==>
      var p := Run(batch, scorer, n).error.position;
      p < n && Succeeds(batch, scorer, p) && Check(batch, scorer, p) == Fails(Run(batch, scorer, n).error)
  {
    if n > 0 {
      RunFails(batch, scorer, n - 1);
    }
  }

  /** When every element is scored, the buckets are the requests filtered by
      the sign of their score. */
  lemma {:induction false} RunBuckets(batch: seq<Item>, scorer: Scorer, n: nat)
    requires n <= |batch| && Succeeds(batch, scorer, n)
    ensures Run(batch, scorer, n)
         == Ok(Evaluation(Select(Requests(batch, n), Scores(batch, scorer, n), false),
                          Select(Requests(batch, n), Scores(batch, scorer, n), true)))
  {
    if n > 0 {
      RunBuckets(batch, scorer, n - 1);
      var r, x := batch[n - 1].request, Check(batch, scorer, n - 1).value;
      assert Requests(batch, n) == Requests(batch, n - 1) + [r];
      assert Scores(batch, scorer, n) == Scores(batch, scorer, n - 1) + [x];
      SelectSnoc(Requests(batch, n - 1), Scores(batch, scorer, n - 1), r, x, false);
      SelectSnoc(Requests(batch, n - 1), Scores(batch, scorer, n - 1), r, x, true);
    }
  }

  /** Once an exception has been raised nothing further happens. */
  lemma {:induction false} ErrorPersists(batch: seq<Item>, scorer: Scorer, m: nat, n: nat)
    requires m <= n <= |batch| && Run(batch, scorer, m).Err?
    ensures Run(batch, scorer, n) == Run(batch, scorer, m)
    ensures Calls(batch, scorer, n) == Calls(batch, scorer, m)
  {
    if n > m {
      ErrorPersists(batch, scorer, m, n - 1);
    }
  }

  /** The scorer is called once per element reached, except an element that is
      not a request: after a successful pass it was called for every element;
      after an exception, for every element before the failing one and for the
      failing one unless it failed the request type check. */
  lemma {:induction false} CallsMeaning(batch: seq<Item>, scorer: Scorer, n: nat)
    requires n <= |batch|
    ensures Calls(batch, scorer, n) <= n
    ensures Run(batch, scorer, n).Ok? ==> Calls(batch, scorer, n) == n
    ensures Run(batch, scorer, n).Err? ==>
      Calls(batch, scorer, n)
        == Run(batch, scorer, n).error.position + (if Run(batch, scorer, n).error.RequestTypeError? then 0 else 1)
  {
    if n > 0 {
      CallsMeaning(batch, scorer, n - 1);
    }
  }

  /** The outcome depends on the scorer only through the calls actually made:
      two scorers that agree on those calls give the same outcome. In
      particular an empty batch, or one whose first element is not a request,
      makes no call at all. */
  lemma {:induction false} OnlyCallsMade(batch: seq<Item>, s1: Scorer, s2: Scorer, n: nat)
    requires n <= |batch|
    requires forall k :: 0 <= k < |batch| && k < Calls(batch, s1, n) && batch[k].Req? ==>
      s1(k, batch[k].request) == s2(k, batch[k].request)
    ensures Run(batch, s1, n) == Run(batch, s2, n)
    ensures Calls(batch, s1, n) == Calls(batch, s2, n)
  {
    if n > 0 {
      OnlyCallsMade(batch, s1, s2, n - 1);
      CallsMeaning(batch, s1, n - 1);
    }
  }

  /** The first element that is not a request, or whose score is not a finite
      decimal, decides the exception, whatever follows it. */
  lemma FirstFailureDecides(batch: seq<Item>, scorer: Scorer, k: nat)
    requires k < |batch| && Succeeds(batch, scorer, k) && Check(batch, scorer, k).Fails?
    ensures Run(batch, scorer, |batch|) == Err(Check(batch, scorer, k).error)
  {
    RunMeaning(batch, scorer, k);
    ErrorPersists(batch, scorer, k + 1, |batch|);
  }

  /** An element that is not a request anywhere in the batch means no
      evaluation is returned: an exception is raised at it or before it. */
  lemma NonRequestRejected(batch: seq<Item>, scorer: Scorer, k: nat)
    requires k < |batch| && batch[k] == NotARequest
    ensures Run(batch, scorer, |batch|).Err?
    ensures Run(batch, scorer, |batch|).error.position <= k
  {
    RunMeaning(batch, scorer, |batch|);
    assert !Check(batch, scorer, k).Scored?;
  }

  /** A successful evaluation partitions the batch: the bucket sizes add up to
      the batch size and together the buckets hold every request exactly as
      often as the batch does. */
  lemma Partition(batch: seq<Item>, scorer: Scorer)
    requires Run(batch, scorer, |batch|).Ok?
    ensures forall k :: 0 <= k < |batch| ==> batch[k].Req?
    ensures var ev := Run(batch, scorer, |batch|).evaluation;
      && |ev.typical| + |ev.anomalous| == |batch|
      && multiset(ev.typical) + multiset(ev.anomalous) == multiset(Requests(batch, |batch|))
  {
    RunMeaning(batch, scorer, |batch|);
    assert forall k :: 0 <= k < |batch| ==> Check(batch, scorer, k).Scored?;
    SelectSplits(Requests(batch, |batch|), Scores(batch, scorer, |batch|));
  }

  /** After a successful evaluation a bucket is empty exactly when no score
      falls on its side: no anomalous request iff every score is positive, no
      typical request iff every score is at most zero. */
  lemma EmptyBucket(batch: seq<Item>, scorer: Scorer)
    requires Succeeds(batch, scorer, |batch|)
    ensures Run(batch, scorer, |batch|).Ok? &&
      (Run(batch, scorer, |batch|).evaluation.anomalous == []
       <==> forall k :: 0 <= k < |batch| ==> Check(batch, scorer, k).value > 0.0)
    ensures Run(batch, scorer, |batch|).Ok? &&
      (Run(batch, scorer, |batch|).evaluation.typical == []
       <==> forall k :: 0 <= k < |batch| ==> Check(batch, scorer, k).value <= 0.0)
  {
    RunMeaning(batch, scorer, |batch|);
    var rs, xs := Requests(batch, |batch|), Scores(batch, scorer, |batch|);
    assert forall k :: 0 <= k < |batch| ==> xs[k] == Check(batch, scorer, k).value;
    SelectEmptyIff(rs, xs, true);
    SelectEmptyIff(rs, xs, false);
  }

  /** When every score falls on one side, that bucket is the whole batch in
      order and the other is empty. */
  lemma UniformScores(batch: seq<Item>, scorer: Scorer, anomalous: bool)
    requires Succeeds(batch, scorer, |batch|)
    requires forall k :: 0 <= k < |batch| ==> IsAnomalous(Check(batch, scorer, k).value) == anomalous
    ensures Run(batch, scorer, |batch|)
         == Ok(if anomalous then Evaluation([], Requests(batch, |batch|))
               else Evaluation(Requests(batch, |batch|), []))
  {
    RunMeaning(batch, scorer, |batch|);
    var rs, xs := Requests(batch, |batch|), Scores(batch, scorer, |batch|);
    SelectAllOnSide(rs, xs, anomalous);
    SelectEmptyIff(rs, xs, !anomalous);
  }

  /** A scorer answering -1, +1, -1, ... in call order splits an even batch of
      requests half and half. */
  lemma AlternatingScores(batch: seq<Item>, scorer: Scorer)
    requires |batch| % 2 == 0
    requires forall k :: 0 <= k < |batch| ==> batch[k].Req?
    requires forall k :: 0 <= k < |batch| ==>
      scorer(k, batch[k].request) == Returned(Decimal(if k % 2 == 0 then -1.0 else 1.0))
    ensures Run(batch, scorer, |batch|).Ok?
    ensures |Run(batch, scorer, |batch|).evaluation.typical| == |batch| / 2
    ensures |Run(batch, scorer, |batch|).evaluation.anomalous| == |batch| / 2
  {
    assert Succeeds(batch, scorer, |batch|);
    RunMeaning(batch, scorer, |batch|);
    SelectAlternating(Requests(batch, |batch|), Scores(batch, scorer, |batch|));
  }

  /** `EvaluationService.evaluate`: start with two empty buckets and, for each
      element in turn, check it is a request, ask the scorer, check the score
      is a decimal, and append the request to the bucket its score's sign picks. */
  method Evaluate(batch: seq<Item>, scorer: Scorer) returns (out: Outcome)
    ensures out == Run(batch, scorer, |batch|)
    ensures out.Ok? <==> Succeeds(batch, scorer, |batch|)
    ensures out.Ok? ==>
      && out.evaluation.typical == Select(Requests(batch, |batch|), Scores(batch, scorer, |batch|), false)
      && out.evaluation.anomalous == Select(Requests(batch, |batch|), Scores(batch, scorer, |batch|), true)
    ensures out.Err? ==>
      out.error.position < |batch| && Succeeds(batch, scorer, out.error.position)
      && Check(batch, scorer, out.error.position) == Fails(out.error)
  {
    var typical: seq<Request> := [];
    var anomalous: seq<Request> := [];
    for i := 0 to |batch|
      invariant Run(batch, scorer, i) == Ok(Evaluation(typical, anomalous))
    {
      if batch[i].NotARequest? {
        out := Err(RequestTypeError(i));
        RunMeaning(batch, scorer, i);
        FirstFailureDecides(batch, scorer, i);
        RunMeaning(batch, scorer, |batch|);
        return;
      }
      var request := batch[i].request;
      var reply := scorer(i, request);
      if reply.Raised? {
        out := Err(ScorerRaised(i));
        RunMeaning(batch, scorer, i);
        FirstFailureDecides(batch, scorer, i);
        RunMeaning(batch, scorer, |batch|);
        return;
      }
      var score := reply.score;
      if score.Integer? || score.Unusable? {
        out := Err(ScoreTypeError(i));
        RunMeaning(batch, scorer, i);
        FirstFailureDecides(batch, scorer, i);
        RunMeaning(batch, scorer, |batch|);
        return;
      }
      if score.DecimalNaN? {
        out := Err(InvalidOperation(i));
        RunMeaning(batch, scorer, i);
        FirstFailureDecides(batch, scorer, i);
        RunMeaning(batch, scorer, |batch|);
        return;
      }
      if IsAnomalous(score.value) {
        anomalous := anomalous + [request];
      } else {
        typical := typical + [request];
      }
    }
    out := Ok(Evaluation(typical, anomalous));
    RunMeaning(batch, scorer, |batch|);
  }

  /** An empty batch gives two empty buckets whatever the scorer would say. */
  method EmptyBatch(scorer: Scorer) returns (out: Outcome)
    ensures out == Ok(Evaluation([], []))
  {
    out := Evaluate([], scorer);
  }

  /** A decimal NaN passes the type check but cannot be compared with zero:
      the call raises the decimal module's InvalidOperation at that element,
      even when the batch goes on with well-scored requests. */
  method NaNScore(r: Request, rest: seq<Item>) returns (out: Outcome)
    ensures out == Err(InvalidOperation(0))
  {
    var batch := [Req(r)] + rest;
    var scorer := (k: nat, q: Request) => if k == 0 then Returned(DecimalNaN) else Returned(Decimal(1.0));
    out := Evaluate(batch, scorer);
    FirstFailureDecides(batch, scorer, 0);
  }
}
