/** The stateful engine (second version): it classifies like the first and
    also keeps every score it has ever received, across calls, reporting the
    sample standard deviation of that whole history with each evaluation. */
module TaskTwo {
  import opened Common
  import opened Classify
  import opened Statistics
  import TaskOne

  /** The reported standard deviation. `NaN` is the initial decimal NaN and
      `Zero` the literal zero. `Root(v)` is the sample standard deviation of
      the history, held as its variance `v`: the reported value is the
      non-negative square root of `v` (see `Denotes`). */
  datatype Deviation = NaN | Zero | Root(variance: real)

  /** What setting the standard deviation comes to: a value to report; the
      `TypeError` that `statistics.stdev` raises for a history holding an
      object it cannot combine with numbers (`Rejected`); or the exception it
      raises for a history of numbers that holds a decimal NaN (`Failed`). */
  datatype Stdev = Reported(deviation: Deviation) | Rejected | Failed

  /** The result of a successful call. */
  datatype Report = Report(typical: seq<Request>, anomalous: seq<Request>, standardDeviation: Deviation)

  datatype Outcome = Ok(report: Report) | Err(error: Error)

  /** The numbers `d` can stand for: none for NaN, zero for `Zero`, the
      standard deviation for `Root(v)`. */
  predicate Denotes(d: Deviation, s: real) {
    match d
    case NaN => false
    case Zero => s == 0.0
    case Root(v) => IsSquareRoot(s, v)
  }

  /** The scores a call appends to the history while processing the first n
      elements: the reply to every scorer call that returned, whatever it
      returned, because the score is appended before it is checked. */
  function Recorded(batch: seq<Item>, scorer: Scorer, n: nat): seq<Score>
    requires n <= |batch|
  {
    if n == 0 then []
    else if TaskOne.Run(batch, scorer, n - 1).Ok? && batch[n - 1].Req? && scorer(n - 1, batch[n - 1].request).Returned?
    then Recorded(batch, scorer, n - 1) + [scorer(n - 1, batch[n - 1].request).score]
    else Recorded(batch, scorer, n - 1)
  }

  /** Every entry of the history is a number `statistics` computes with
      exactly: a finite decimal or an integer. */
  predicate AllNumbers(h: seq<Score>) {
    forall i :: 0 <= i < |h| ==> h[i].Decimal? || h[i].Integer?
  }

  function Number(s: Score): real
    requires s.Decimal? || s.Integer?
  {
    if s.Decimal? then s.value else s.number as real
  }

  function Values(h: seq<Score>): seq<real>
    requires AllNumbers(h)
  {
    seq(|h|, i requires 0 <= i < |h| => Number(h[i]))
  }

  /** `statistics.stdev` over a history of two or more entries: a `TypeError`
      when one entry is an object it cannot use (raised while it walks the
      entries, so before anything else goes wrong); otherwise an exception
      when an entry is a decimal NaN; otherwise the exact sample standard
      deviation, every entry then being a number. */
  function LibraryStdev(h: seq<Score>): Stdev
    requires |h| >= 2
  {
    if Unusable in h then Rejected
    else if DecimalNaN in h then Failed
    else
      NumbersExactly(h);
      Reported(Root(SampleVariance(Values(h))))
  }

  /** The three-way rule applied to the history after a successful loop. */
  function StandardDeviation(h: seq<Score>): Stdev {
    if |h| >= 2 then LibraryStdev(h)
    else if |h| == 1 then Reported(Zero)
    else Reported(NaN)
  }

  /** What `evaluate` returns or raises on an engine whose history is `h`. */
  function Response(h: seq<Score>, batch: seq<Item>, scorer: Scorer): Outcome {
    match TaskOne.Run(batch, scorer, |batch|)
    case Err(e) => Err(e)
    case Ok(ev) =>
      match StandardDeviation(h + Recorded(batch, scorer, |batch|))
      case Rejected => Err(StdevTypeError(|batch|))
      case Failed => Err(StdevFailed(|batch|))
      case Reported(d) => Ok(Report(ev.typical, ev.anomalous, d))
  }

  /** A sequence of calls on one engine, each a batch and its scorer. */
  datatype Call = Call(batch: seq<Item>, scorer: Scorer)

  /** The history after the given calls, in order, whether they raised or not. */
  function HistoryAfter(h: seq<Score>, calls: seq<Call>): seq<Score> {
    if calls == [] then h
    else
      var c := calls[|calls| - 1];
      HistoryAfter(h, calls[..|calls| - 1]) + Recorded(c.batch, c.scorer, |c.batch|)
  }

  /** How much a call appends: one score per element of a batch that
      succeeds; for one that fails, the scores of the elements before the
      failing one, and also the failing element's score when that score
      itself was the problem (not a decimal, or NaN). */
  lemma {:induction false} RecordedLength(batch: seq<Item>, scorer: Scorer, n: nat)
    requires n <= |batch|
    ensures TaskOne.Run(batch, scorer, n).Ok? ==> |Recorded(batch, scorer, n)| == n
    ensures TaskOne.Run(batch, scorer, n).Err? ==>
      var e := TaskOne.Run(batch, scorer, n).error;
      |Recorded(batch, scorer, n)| == e.position + (if e.ScoreTypeError? || e.InvalidOperation? then 1 else 0)
  {
    if n > 0 {
      RecordedLength(batch, scorer, n - 1);
    }
  }

  /** What a call appends: in call order, the score the scorer returned at
      each position, whatever it returned. */
  lemma {:induction false} RecordedEntries(batch: seq<Item>, scorer: Scorer, n: nat)
    requires n <= |batch|
    ensures forall k :: 0 <= k < |Recorded(batch, scorer, n)| ==>
      k < n && batch[k].Req? && scorer(k, batch[k].request) == Returned(Recorded(batch, scorer, n)[k])
  {
    if n == 0 {
      assert Recorded(batch, scorer, 0) == [];
    } else {
      RecordedEntries(batch, scorer, n - 1);
      RecordedLength(batch, scorer, n - 1);
      RecordedBound(batch, scorer, n - 1);
      var prev, h := Recorded(batch, scorer, n - 1), Recorded(batch, scorer, n);
      forall k | 0 <= k < |h|
        ensures k < n && batch[k].Req? && scorer(k, batch[k].request) == Returned(h[k])
      {
        if k < |prev| {
          assert h[k] == prev[k];
        } else {
          assert |prev| == n - 1 && k == n - 1;
          assert h == prev + [scorer(n - 1, batch[n - 1].request).score];
        }
      }
    }
  }

  /** A call never appends more scores than it has elements. */
  lemma {:induction false} RecordedBound(batch: seq<Item>, scorer: Scorer, n: nat)
    requires n <= |batch|
    ensures |Recorded(batch, scorer, n)| <= n
  {
    if n > 0 {
      RecordedBound(batch, scorer, n - 1);
    }
  }

  /** The history grows by exactly one score per scorer call, except a call
      that raised. */
  lemma {:induction false} RecordedCalls(batch: seq<Item>, scorer: Scorer, n: nat)
    requires n <= |batch|
    ensures |Recorded(batch, scorer, n)|
           + (if TaskOne.Run(batch, scorer, n).Err? && TaskOne.Run(batch, scorer, n).error.ScorerRaised? then 1 else 0)
         == TaskOne.Calls(batch, scorer, n)
  {
    if n > 0 {
      RecordedCalls(batch, scorer, n - 1);
    }
  }

  /** Once an exception has been raised nothing more is appended. */
  lemma {:induction false} RecordedPersists(batch: seq<Item>, scorer: Scorer, m: nat, n: nat)
    requires m <= n <= |batch| && TaskOne.Run(batch, scorer, m).Err?
    ensures Recorded(batch, scorer, n) == Recorded(batch, scorer, m)
  {
    if n > m {
      RecordedPersists(batch, scorer, m, n - 1);
      TaskOne.ErrorPersists(batch, scorer, m, n - 1);
    }
  }

  /** A score that is not a decimal, or is NaN, raises only after it has been
      appended: the history ends with the offending value. */
  lemma BadScoreRecorded(batch: seq<Item>, scorer: Scorer)
    requires TaskOne.Run(batch, scorer, |batch|).Err?
    requires TaskOne.Run(batch, scorer, |batch|).error.ScoreTypeError? || TaskOne.Run(batch, scorer, |batch|).error.InvalidOperation?
    ensures var h := Recorded(batch, scorer, |batch|);
      h != [] && !h[|h| - 1].Decimal?
  {
    RecordedLength(batch, scorer, |batch|);
    RecordedEntries(batch, scorer, |batch|);
    TaskOne.RunMeaning(batch, scorer, |batch|);
  }

  /** A successful batch appends only finite decimals: they are the scores
      that classified its requests. */
  lemma SuccessRecordsScores(batch: seq<Item>, scorer: Scorer)
    requires TaskOne.Succeeds(batch, scorer, |batch|)
    ensures |Recorded(batch, scorer, |batch|)| == |batch|
    ensures forall k :: 0 <= k < |batch| ==>
      Recorded(batch, scorer, |batch|)[k] == Decimal(TaskOne.Scores(batch, scorer, |batch|)[k])
    ensures AllNumbers(Recorded(batch, scorer, |batch|))
         && Values(Recorded(batch, scorer, |batch|)) == TaskOne.Scores(batch, scorer, |batch|)
  {
    TaskOne.RunMeaning(batch, scorer, |batch|);
    RecordedLength(batch, scorer, |batch|);
    RecordedEntries(batch, scorer, |batch|);
    var h := Recorded(batch, scorer, |batch|);
    forall k | 0 <= k < |h|
      ensures h[k] == Decimal(TaskOne.Check(batch, scorer, k).value)
    {
      assert TaskOne.Check(batch, scorer, k).Scored?;
    }
  }

  /** A history is all numbers exactly when it holds neither an object the
      library cannot use nor a decimal NaN. */
  lemma NumbersExactly(h: seq<Score>)
    ensures AllNumbers(h) <==> Unusable !in h && DecimalNaN !in h
  {
    if Unusable !in h && DecimalNaN !in h {
      forall i | 0 <= i < |h|
        ensures h[i].Decimal? || h[i].Integer?
      {
        assert h[i] in h;
      }
    }
    if AllNumbers(h) {
      assert forall i :: 0 <= i < |h| ==> h[i] != Unusable && h[i] != DecimalNaN;
    }
  }

  /** A history that the library can no longer compute a deviation for. */
  predicate Poisoned(h: seq<Score>) {
    Unusable in h || DecimalNaN in h
  }

  /** An engine whose history holds only numbers keeps it so through any
      call whose loop succeeds, and that call then returns, reporting the
      sample standard deviation of the whole history once it has two
      entries: an engine on which no call has failed never raises after
      its loop. */
  lemma CleanHistoryStaysClean(h: seq<Score>, batch: seq<Item>, scorer: Scorer)
    requires AllNumbers(h) && TaskOne.Run(batch, scorer, |batch|).Ok?
    ensures AllNumbers(h + Recorded(batch, scorer, |batch|))
    ensures Response(h, batch, scorer).Ok?
    ensures var h' := h + Recorded(batch, scorer, |batch|);
      |h'| >= 2 && AllNumbers(h') ==> Response(h, batch, scorer).report.standardDeviation == Root(SampleVariance(Values(h')))
  {
    TaskOne.RunMeaning(batch, scorer, |batch|);
    SuccessRecordsScores(batch, scorer);
    var h' := h + Recorded(batch, scorer, |batch|);
    assert forall i :: |h| <= i < |h'| ==> h'[i] == Recorded(batch, scorer, |batch|)[i - |h|];
    NumbersExactly(h');
  }

  /** The three-way rule: NaN exactly for an empty history, zero exactly for
      a single entry whatever it is, and otherwise the library's result over
      the whole history: a `TypeError` exactly when an entry is an object it
      cannot use, otherwise a failure exactly when an entry is a decimal NaN,
      and the sample standard deviation, whose variance is never negative,
      exactly when every entry is a number. */
  lemma DeviationRule(h: seq<Score>)
    ensures StandardDeviation(h) == Reported(NaN) <==> h == []
    ensures StandardDeviation(h) == Reported(Zero) <==> |h| == 1
    ensures StandardDeviation(h) == Rejected <==> |h| >= 2 && Unusable in h
    ensures StandardDeviation(h) == Failed <==> |h| >= 2 && Unusable !in h && DecimalNaN in h
    ensures (StandardDeviation(h).Reported? && StandardDeviation(h).deviation.Root?) <==> |h| >= 2 && AllNumbers(h)
    ensures |h| >= 2 && AllNumbers(h) ==>
      StandardDeviation(h) == Reported(Root(SampleVariance(Values(h)))) && SampleVariance(Values(h)) >= 0.0
  {
    NumbersExactly(h);
    if |h| >= 2 && AllNumbers(h) {
      SampleVarianceNonNegative(Values(h));
    }
  }

  /** Over two or more numbers the reported standard deviation is zero
      exactly when all of them are equal. */
  lemma DeviationZeroIffEqual(h: seq<Score>, s: real)
    requires |h| >= 2 && AllNumbers(h)
    requires StandardDeviation(h).Reported? && Denotes(StandardDeviation(h).deviation, s)
    ensures s == 0.0 <==> forall i, j :: 0 <= i < |h| && 0 <= j < |h| ==> Number(h[i]) == Number(h[j])
  {
    var xs := Values(h);
    NumbersExactly(h);
    SampleVarianceZeroIff(xs);
    SquareRootZeroIff(s, SampleVariance(xs));
    assert forall i :: 0 <= i < |h| ==> xs[i] == Number(h[i]);
  }

  /** The reported deviation, whenever it stands for a number, stands for one
      number only, and that number is never negative. */
  lemma DenotesUnique(d: Deviation, s1: real, s2: real)
    requires Denotes(d, s1) && Denotes(d, s2)
    ensures s1 == s2 && s1 >= 0.0
  {
    if d.Root? {
      SquareRootUnique(s1, s2, d.variance);
    }
  }

  /** On an engine whose history holds two or more entries, one of them an
      object the library cannot use or a decimal NaN, a call raises whatever
      its batch: at the failing element, or, once the loop has classified the
      whole batch, with the library's `TypeError` (an unusable object) or its
      failure over the NaN. The history keeps that entry. */
  lemma PoisonedEngineRaises(h: seq<Score>, batch: seq<Item>, scorer: Scorer)
    requires |h| >= 2 && Poisoned(h)
    ensures Response(h, batch, scorer).Err?
    ensures TaskOne.Run(batch, scorer, |batch|).Ok? ==>
      Response(h, batch, scorer)
        == Err(if Unusable in h + Recorded(batch, scorer, |batch|) then StdevTypeError(|batch|) else StdevFailed(|batch|))
    ensures Poisoned(h + Recorded(batch, scorer, |batch|))
  {
    var h' := h + Recorded(batch, scorer, |batch|);
    var i :| 0 <= i < |h| && (h[i] == Unusable || h[i] == DecimalNaN);
    assert h'[i] == h[i];
  }

  /** Calls never shrink the history and never remove an entry from it. */
  lemma {:induction false} HistoryAfterKeeps(h: seq<Score>, calls: seq<Call>)
    ensures |HistoryAfter(h, calls)| >= |h|
    ensures HistoryAfter(h, calls)[..|h|] == h
  {
    if calls != [] {
      var c := calls[|calls| - 1];
      var prev := HistoryAfter(h, calls[..|calls| - 1]);
      HistoryAfterKeeps(h, calls[..|calls| - 1]);
      assert (prev + Recorded(c.batch, c.scorer, |c.batch|))[..|h|] == prev[..|h|];
    }
  }

  /** Once a call has left an unusable object or a decimal NaN in a history
      of two or more entries, every later call on that engine raises,
      whatever it is given. */
  lemma PoisonLasts(h: seq<Score>, calls: seq<Call>)
    requires |h| >= 2 && Poisoned(h)
    ensures forall i :: 0 <= i < |calls| ==>
      Response(HistoryAfter(h, calls[..i]), calls[i].batch, calls[i].scorer).Err?
  {
    forall i | 0 <= i < |calls|
      ensures Response(HistoryAfter(h, calls[..i]), calls[i].batch, calls[i].scorer).Err?
    {
      var g := HistoryAfter(h, calls[..i]);
      HistoryAfterKeeps(h, calls[..i]);
      var j :| 0 <= j < |h| && (h[j] == Unusable || h[j] == DecimalNaN);
      assert g[..|h|][j] == h[j];
      assert g[j] == h[j];
      PoisonedEngineRaises(g, calls[i].batch, calls[i].scorer);
    }
  }

  /** `EvaluationService`: the scorer is a parameter of each call; the
      history of scores is the state that persists between calls. */
  class EvaluationService {
    var scores: seq<Score>

    /** `__init__`: a new engine has an empty history. */
    constructor()
      ensures scores == []
    {
      scores := [];
    }

    /** `evaluate`: classify like the first version, appending every score
        received to the history before checking it; after a successful pass,
        set the deviation of the whole history by the three-way rule, which
        raises when the library rejects the history. The history keeps what
        was appended even when the call raises. */
    method Evaluate(batch: seq<Item>, scorer: Scorer) returns (out: Outcome)
      modifies this
      ensures scores == old(scores) + Recorded(batch, scorer, |batch|)
      ensures out == Response(old(scores), batch, scorer)
    {
      var typical: seq<Request> := [];
      var anomalous: seq<Request> := [];
      var deviation := NaN;
      for i := 0 to |batch|
        invariant TaskOne.Run(batch, scorer, i) == TaskOne.Ok(TaskOne.Evaluation(typical, anomalous))
        invariant scores == old(scores) + Recorded(batch, scorer, i)
      {
        if batch[i].NotARequest? {
          out := Err(RequestTypeError(i));
          Finish(batch, scorer, i);
          return;
        }
        var request := batch[i].request;
        var reply := scorer(i, request);
        if reply.Raised? {
          out := Err(ScorerRaised(i));
          Finish(batch, scorer, i);
          return;
        }
        var score := reply.score;
        scores := scores + [score];
        if score.Integer? || score.Unusable? {
          out := Err(ScoreTypeError(i));
          Finish(batch, scorer, i);
          return;
        }
        if score.DecimalNaN? {
          out := Err(InvalidOperation(i));
          Finish(batch, scorer, i);
          return;
        }
        if IsAnomalous(score.value) {
          anomalous := anomalous + [request];
        } else {
          typical := typical + [request];
        }
      }
      if |scores| >= 2 {
        var library := LibraryStdev(scores);
        if library.Rejected? {
          out := Err(StdevTypeError(|batch|));
          return;
        }
        if library.Failed? {
          out := Err(StdevFailed(|batch|));
          return;
        }
        deviation := library.deviation;
      } else if |scores| == 1 {
        deviation := Zero;
      }
      out := Ok(Report(typical, anomalous, deviation));
    }
  }

  /** A call that raises at element i has run and recorded all it ever will
      by the end of element i. */
  lemma Finish(batch: seq<Item>, scorer: Scorer, i: nat)
    requires i < |batch| && TaskOne.Run(batch, scorer, i).Ok? && TaskOne.Check(batch, scorer, i).Fails?
    ensures TaskOne.Run(batch, scorer, |batch|) == TaskOne.Err(TaskOne.Check(batch, scorer, i).error)
    ensures Recorded(batch, scorer, |batch|) == Recorded(batch, scorer, i + 1)
  {
    TaskOne.ErrorPersists(batch, scorer, i + 1, |batch|);
    RecordedPersists(batch, scorer, i + 1, |batch|);
  }

  /** A request to the test server, as the tests build them. */
  function Probe(i: nat): Request {
    Request("https://test-request/" + [(48 + i % 10) as char], "GET", "")
  }

  /** A scorer that always returns the same value. */
  function Always(score: Score): Scorer {
    (k: nat, r: Request) => Returned(score)
  }

  /** A new engine given no requests reports two empty buckets and NaN, and
      its history stays empty. */
  method FreshEngineEmptyBatch() returns (out: Outcome, history: seq<Score>)
    ensures out == Ok(Report([], [], NaN)) && history == []
  {
    var engine := new EvaluationService();
    out := engine.Evaluate([], Always(Decimal(1.0)));
    history := engine.scores;
  }

  /** A single score gives a deviation of zero, whatever its sign. */
  method SingleScore(x: real) returns (out: Outcome, history: seq<Score>)
    ensures out == Ok(Report(if x <= 0.0 then [] else [Probe(0)], if x <= 0.0 then [Probe(0)] else [], Zero))
    ensures history == [Decimal(x)]
  {
    var engine := new EvaluationService();
    out := engine.Evaluate([Req(Probe(0))], Always(Decimal(x)));
    history := engine.scores;
  }

  /** Two equal scores: both requests typical, in order, and a deviation of zero. */
  method TwoEqualScores() returns (out: Outcome, history: seq<Score>)
    ensures out.Ok? && out.report.typical == [Probe(0), Probe(1)] && out.report.anomalous == []
    ensures Denotes(out.report.standardDeviation, 0.0)
    ensures history == [Decimal(1.0), Decimal(1.0)]
  {
    var engine := new EvaluationService();
    out := engine.Evaluate([Req(Probe(0)), Req(Probe(1))], Always(Decimal(1.0)));
    history := engine.scores;
    SampleVarianceOfPair(1.0, 1.0);
    assert Values(history) == [1.0, 1.0];
  }

  /** The deviation is taken over every score the engine has received, not
      only this batch's: scores 1 then 3 in two calls give zero after the
      first call and then the deviation of {1, 3}, the square root of 2. */
  method ScoresAccumulateAcrossCalls() returns (first: Outcome, second: Outcome, history: seq<Score>)
    ensures first == Ok(Report([Probe(0)], [], Zero))
    ensures second == Ok(Report([Probe(1)], [], Root(2.0)))
    ensures history == [Decimal(1.0), Decimal(3.0)]
  {
    var engine := new EvaluationService();
    first := engine.Evaluate([Req(Probe(0))], Always(Decimal(1.0)));
    second := engine.Evaluate([Req(Probe(1))], Always(Decimal(3.0)));
    history := engine.scores;
    SampleVarianceOfPair(1.0, 3.0);
    assert Values(history) == [1.0, 3.0];
  }

  /** A call that raises keeps what it appended: an element that is not a
      request leaves the earlier score in the history, and a score such as
      None is itself appended. From then on the library rejects the
      history, so every later call raises, even on an empty batch or on a
      batch it has classified without fault. */
  method FailedBatchesKeepTheirScores()
    returns (first: Outcome, second: Outcome, third: Outcome, fourth: Outcome, history: seq<Score>)
    ensures first == Err(RequestTypeError(1))
    ensures second == Err(ScoreTypeError(0))
    ensures third == Err(StdevTypeError(0))
    ensures fourth == Err(StdevTypeError(1))
    ensures history == [Decimal(1.0), Unusable, Decimal(1.0)]
  {
    var engine := new EvaluationService();
    first := engine.Evaluate([Req(Probe(0)), NotARequest], Always(Decimal(1.0)));
    second := engine.Evaluate([Req(Probe(1))], Always(Unusable));
    assert engine.scores[1] == Unusable;
    third := engine.Evaluate([], Always(Decimal(1.0)));
    fourth := engine.Evaluate([Req(Probe(2))], Always(Decimal(1.0)));
    history := engine.scores;
  }

  /** A bad score alone in the history does not reach the library: with one
      entry the deviation is the literal zero. */
  method LoneBadScoreGivesZero() returns (first: Outcome, second: Outcome, history: seq<Score>)
    ensures first == Err(ScoreTypeError(0))
    ensures second == Ok(Report([], [], Zero))
    ensures history == [Unusable]
  {
    var engine := new EvaluationService();
    first := engine.Evaluate([Req(Probe(0))], Always(Unusable));
    second := engine.Evaluate([], Always(Decimal(1.0)));
    history := engine.scores;
  }

  /** An integer score raises the score's `TypeError` but stays in the
      history, where the library counts it like a decimal: integer 3 then
      decimal 1 give the deviation of {3, 1}, the square root of 2. */
  method IntegerScoreEntersDeviation() returns (first: Outcome, second: Outcome, history: seq<Score>)
    ensures first == Err(ScoreTypeError(0))
    ensures second == Ok(Report([Probe(1)], [], Root(2.0)))
    ensures history == [Integer(3), Decimal(1.0)]
  {
    var engine := new EvaluationService();
    first := engine.Evaluate([Req(Probe(0))], Always(Integer(3)));
    second := engine.Evaluate([Req(Probe(1))], Always(Decimal(1.0)));
    history := engine.scores;
    SampleVarianceOfPair(3.0, 1.0);
    assert Values(history) == [3.0, 1.0];
  }

  /** A decimal NaN raises the comparison's `InvalidOperation` but stays in
      the history; once the history has two entries the library fails over
      it, so a later call raises even on an empty batch. */
  method NaNScorePoisonsLaterCalls() returns (first: Outcome, second: Outcome, third: Outcome, history: seq<Score>)
    ensures first == Ok(Report([Probe(0)], [], Zero))
    ensures second == Err(InvalidOperation(0))
    ensures third == Err(StdevFailed(0))
    ensures history == [Decimal(1.0), DecimalNaN]
  {
    var engine := new EvaluationService();
    first := engine.Evaluate([Req(Probe(0))], Always(Decimal(1.0)));
    second := engine.Evaluate([Req(Probe(1))], Always(DecimalNaN));
    assert engine.scores[1] == DecimalNaN;
    third := engine.Evaluate([], Always(Decimal(1.0)));
    history := engine.scores;
  }
}
