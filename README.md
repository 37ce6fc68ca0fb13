# Request evaluation engine — a verified model

The engine takes a list of HTTP-like requests and asks an external scorer for a
decimal score for each one. It sorts the requests into *typical* ones (score
above zero) and *anomalous* ones (score zero or below). It exists in two versions:

- **Task one** (`task_one/evaluation_service.py`) is stateless. It walks the
  list in order and checks that each element is a request. It asks the scorer
  for a score and checks that the score is a decimal. It then appends the
  request to the bucket the score's sign picks. A failed check raises
  `TypeError` part-way, and no evaluation is returned.
- **Task two** (`task_two/evaluation_service.py`) classifies the same way. It
  also keeps `scores`, a history of every score the engine has received across
  all calls. Each score is appended *before* it is checked. A successful call
  also reports a standard deviation, which is:
  - NaN for an empty history;
  - `0` for a history of one score;
  - otherwise the sample standard deviation of the whole history, with N−1
    in the denominator (`statistics.stdev`).

Modules:

- `Common` (common.dfy): the request record, the elements of a batch (a
  request or something else), scorer replies and the exceptions, each with
  the batch position where it was raised.
- `Classify` (classify.dfy): the classification rule `score <= 0`, and
  `Select`, a reference definition of a bucket as an order-preserving filter
  of the batch.
- `Statistics` (statistics.dfy): exact sum, mean, squared deviations and
  sample variance over `real`. The standard deviation is specified as the
  non-negative square root of the variance (`IsSquareRoot`).
- `TaskOne` (task_one.dfy):
  - `Run` is the outcome after the first n elements, and `Check` is what one
    element comes to.
  - `Calls` counts the scorer calls made.
  - The method `Evaluate` is the loop itself, proved against `Run`.
  - Lemmas tie `Run` to `Select`.
- `TaskTwo` (task_two.dfy):
  - The class `EvaluationService` has the mutable `scores` field.
  - `Recorded` is what one call appends to the history.
  - `StandardDeviation` is the three-way rule, and `Response` is what a
    call returns or raises given the history it starts from.
  - Scenario methods drive a real engine through the situations the tests
    check.

The scorer is a parameter: a total function from (call position, request) to
a reply (a score, or an exception it raises). Position and call order
coincide, because a call stops at the first element that is not a request. So
a scorer that changes its answer from call to call, like the alternating one
in the tests, is a function of the position. A decimal score is an exact
`real`.

One consequence of the code is easy to miss, and the model follows the
code: only values that are not decimals raise `TypeError`. A decimal NaN is a `Decimal`, so it passes the score's type
check. It then raises the decimal module's `InvalidOperation` at `score <= 0`,
not `TypeError` (`Error.InvalidOperation`). In task two the NaN has already
been appended to the history by then.

A score that is not a decimal is one of two kinds, because `statistics.stdev`
treats them differently when it later meets them in the history:
- a Python integer (`Score.Integer`), which it combines with decimals exactly;
- any other object such as `None` or a string (`Score.Unusable`), for which
  it raises `TypeError`.

So after a call has left such an object in a history that has reached two
entries, every later call on that engine raises. If its batch fails, it
raises at the failing element as usual. Otherwise it raises that `TypeError`
after classifying the batch (`Error.StdevTypeError`). A decimal NaN left in
such a history has the same effect: a later call raises at the failing
element if its batch fails. Otherwise it raises after classifying the batch,
because `statistics.stdev` cannot compute a deviation over the NaN
(`Error.StdevFailed`). `TaskTwo.PoisonedEngineRaises` and
`TaskTwo.PoisonLasts` state both.

## Model

| member | source | states |
|---|---|---|
| Classify.SelectSnoc | task_one/evaluation_service.py:50-63 | processing one more request extends exactly the bucket its score's sign picks, by that request at the end |
| Classify.SelectSplits | task_one/evaluation_service.py:60-63 | the two buckets together hold every request exactly as often as the input, and their sizes add up to the input size |
| Classify.SelectEmptyIff | task_one/evaluation_service.py:60-63 | a bucket is empty if and only if no score falls on its side |
| Classify.SelectAllIff | task_one/evaluation_service.py:60-63 | a bucket is the whole input, in order, if and only if every score falls on its side |
| Classify.SelectAlternating | task_one/tests/test_evaluation_service.py:92-115 | scores alternating −1, +1 over an even number of requests put half on each side |
| Statistics.SquaredDeviationsNonNegative | task_two/evaluation_service.py:50-51 | the sum of squared deviations is never negative |
| Statistics.SquaredDeviationsZeroIff | task_two/evaluation_service.py:50-51 | the squared deviations from m vanish if and only if every score equals m |
| Statistics.SampleVarianceNonNegative | task_two/evaluation_service.py:50-51 | the sample variance of two or more scores is never negative |
| Statistics.SampleVarianceZeroIff | task_two/evaluation_service.py:50-51 | the sample variance is zero if and only if all scores are equal |
| Statistics.SampleVarianceOfPair | task_two/evaluation_service.py:50-51 | the sample variance of two scores is half their squared difference, as Bessel's N−1 denominator gives |
| Statistics.SquareRootUnique | task_two/evaluation_service.py:50-51 | a variance has at most one non-negative square root, so the reported deviation is pinned down by its variance |
| Statistics.SquareRootZeroIff | task_two/evaluation_service.py:50-51 | the standard deviation is zero if and only if the variance is |
| TaskOne.RunMeaning | task_one/evaluation_service.py:45-65 | the call succeeds if and only if every element is a request with a finite decimal score. The buckets are then the requests filtered by score sign, in input order. Otherwise the exception is the one raised at the first element that fails |
| TaskOne.RunFails | task_one/evaluation_service.py:50-58 | the call raises if and only if some element fails a check, and then at the first such element with that element's exception |
| TaskOne.RunBuckets | task_one/evaluation_service.py:49-63 | when every element is scored, the buckets are the score-sign filters of the input in order |
| TaskOne.ErrorPersists | task_one/evaluation_service.py:52-58 | after an exception nothing further is classified and the scorer is not called again |
| TaskOne.CallsMeaning | task_one/evaluation_service.py:50-58 | the scorer is called once per element on success. On failure it is called for each element before the failing one, and for the failing one unless it is not a request |
| TaskOne.OnlyCallsMade | task_one/evaluation_service.py:55 | the outcome depends on the scorer only through the calls actually made |
| TaskOne.FirstFailureDecides | task_one/evaluation_service.py:50-58 | the first element that is not a request, or whose score is not a finite decimal, decides the exception, whatever follows |
| TaskOne.NonRequestRejected | task_one/evaluation_service.py:52-53 | a non-request anywhere in the batch means no evaluation is returned; the exception is raised at that element or before it |
| TaskOne.Partition | task_one/evaluation_service.py:49-65 | on success every element is a request, the bucket sizes add up to the batch size, and each request lands in exactly one bucket |
| TaskOne.EmptyBucket | task_one/evaluation_service.py:60-63 | on success, no anomalous request if and only if every score is positive, and no typical request if and only if every score is at most zero |
| TaskOne.UniformScores | task_one/tests/test_evaluation_service.py:21-89 | when every score falls on one side, that bucket is the whole batch in order and the other is empty |
| TaskOne.AlternatingScores | task_one/tests/test_evaluation_service.py:92-115 | a scorer alternating −1, +1 over an even batch of requests gives equal-sized buckets of half the batch each |
| TaskOne.Evaluate | task_one/evaluation_service.py:45-65 | the loop returns exactly `Run` of the whole batch. It succeeds if and only if every element is scored, with the buckets as score-sign filters; otherwise it raises at the first failing element |
| TaskOne.EmptyBatch | task_one/tests/test_evaluation_service.py:118-123 | an empty batch gives two empty buckets |
| TaskOne.NaNScore | task_one/evaluation_service.py:57-60 | a NaN score as the first reply raises InvalidOperation at position 0, whatever the rest of the batch holds |
| TaskTwo.RecordedLength | task_two/evaluation_service.py:25-34 | a successful call appends one score per element. A failing call appends one per element before the failing one, plus the failing element's own score when that score was the problem |
| TaskTwo.RecordedEntries | task_two/evaluation_service.py:30-31 | each appended entry is exactly the value the scorer returned at that position, checked or not |
| TaskTwo.RecordedBound | task_two/evaluation_service.py:25-31 | a call never appends more scores than its batch has elements |
| TaskTwo.RecordedCalls | task_two/evaluation_service.py:30-31 | the history grows by one entry per scorer call, except a call that raised |
| TaskTwo.RecordedPersists | task_two/evaluation_service.py:27-34 | after an exception nothing more is appended |
| TaskTwo.BadScoreRecorded | task_two/evaluation_service.py:31-36 | a score that is not a decimal, or is NaN, raises only after being appended: the history ends with it |
| TaskTwo.SuccessRecordsScores | task_two/evaluation_service.py:30-39 | a successful call appends exactly one entry per element, and entry k is the finite decimal that classified request k |
| TaskTwo.CleanHistoryStaysClean | task_two/evaluation_service.py:31-51 | a history of numbers stays so through any call whose loop succeeds. That call then returns, and with two or more entries it reports the sample deviation of the whole new history |
| TaskTwo.DeviationRule | task_two/evaluation_service.py:24-55 | NaN if and only if the history is empty. Zero if and only if it has one entry, whatever it is. For two or more entries: the library's `TypeError` if and only if one is an object it cannot use; otherwise its failure if and only if one is a decimal NaN; the sample deviation of the whole history, with a non-negative variance, if and only if all are numbers |
| TaskTwo.DeviationZeroIffEqual | task_two/evaluation_service.py:50-51 | over two or more numbers, the reported deviation is zero if and only if all of them are equal |
| TaskTwo.DenotesUnique | task_two/evaluation_service.py:50-54 | a reported deviation stands for at most one number, and that number is non-negative |
| TaskTwo.EvaluationService.constructor | task_two/evaluation_service.py:16-18 | a new engine has an empty history |
| TaskTwo.EvaluationService.Evaluate | task_two/evaluation_service.py:20-57 | the new history is the old one followed by what the call recorded, whether it raises or not. The outcome is `Response` of the old history: it raises where task one raises; otherwise the three-way rule over the whole new history gives the deviation, or the library's `TypeError` or its failure over a NaN |
| TaskTwo.PoisonedEngineRaises | task_two/evaluation_service.py:25-51 | with two or more entries, one of them unusable or a decimal NaN, a call raises whatever its batch: at the failing element, or after the whole batch with the library's `TypeError` when an entry is unusable and its failure over the NaN otherwise. The entry stays |
| TaskTwo.HistoryAfterKeeps | task_two/evaluation_service.py:31 | a sequence of calls only appends: the old history is a prefix of the new one |
| TaskTwo.PoisonLasts | task_two/evaluation_service.py:31-51 | once the history holds two or more entries, one of them unusable or a decimal NaN, every later call on the engine raises |
| TaskTwo.Finish | task_two/evaluation_service.py:27-34 | a call that raises at element i has classified and recorded all it ever will by the end of element i |
| TaskTwo.FreshEngineEmptyBatch | task_two/tests/test_evaluation_service2.py:235-240 | a new engine given no requests reports two empty buckets and NaN, and its history stays empty |
| TaskTwo.SingleScore | task_two/tests/test_evaluation_service2.py:226-232 | a single score gives deviation zero, whatever its sign, and the request lands on the side of its sign |
| TaskTwo.TwoEqualScores | task_two/tests/test_evaluation_service2.py:206-223 | two equal scores: both requests typical in order, and a deviation that stands for zero |
| TaskTwo.ScoresAccumulateAcrossCalls | task_two/evaluation_service.py:50-54 | the deviation covers the whole history across calls: scores 1 and then 3 give zero, and then the deviation of variance 2 |
| TaskTwo.FailedBatchesKeepTheirScores | task_two/evaluation_service.py:27-51 | a call that raises keeps what it appended, including a `None` score itself. The next calls, one on an empty batch and one on a well-scored request, then raise the library's `TypeError` |
| TaskTwo.LoneBadScoreGivesZero | task_two/evaluation_service.py:50-54 | a bad score alone in the history never reaches the library: the next call reports the literal zero |
| TaskTwo.IntegerScoreEntersDeviation | task_two/evaluation_service.py:31-51 | an integer score raises the score's `TypeError` but stays in the history, where the deviation counts it: integer 3, then decimal 1, give variance 2 |
| TaskTwo.NaNScorePoisonsLaterCalls | task_two/evaluation_service.py:31-51 | a decimal NaN raises `InvalidOperation` but stays in the history; with the earlier score 1 the history has two entries, so the next call raises the library's failure even on an empty batch |

## Left out

- The HTTP scorer client is a network collaborator whose source is not part
  of this model. It is a function parameter, and its exceptions are the one
  `Raised` reply.
- `requests.Request` internals (URL, method, JSON body encoding) belong to a
  third-party library. A request is a plain record. The scorer sees the whole
  request; what it does with it is not modelled.
- The source of `task_one/evaluation.py` is not available. `TaskOne.Evaluation`
  assumes it is a record of two request lists, as the engine uses it. The
  task-two result is the same record with the deviation added
  (`task_two/evaluation.py`).
- The square root itself is not computed. Nor is the rounding of
  `statistics.stdev`: the decimal context's 28-digit precision, or
  binary-float rounding when every entry is an integer. `Root(v)` holds the exact variance, and `Denotes` says the
  reported number is its non-negative square root.
- TaskTwo.EvaluationService.Evaluate: over a history of two or more entries
  holding a decimal NaN (and no unusable object), the type of the exception
  `statistics.stdev` raises depends on the Python version. It is
  `AttributeError` in recent versions and the decimal module's
  `InvalidOperation` in older ones. The model raises `StdevFailed` and does
  not name the type. The older versions return NaN under `python -O`,
  because there the failure comes from an `assert`; that is not modelled.
- Decimal infinities, binary floats and fractions are not modelled as
  scores. A score is a finite decimal, a decimal NaN, an integer, or an
  object that is not a number (`Unusable`). `statistics` raises for a float
  or a fraction mixed with decimals, but not for a history of floats alone.
- The abstract base class and its decorator only fix the signature of
  `evaluate`. They are left out.
- Concurrent calls on one task-two engine are not modelled. The source does
  not synchronise its appends to the history.
- The hypothesis strategies, monkeypatching and fixtures of the tests serve
  only as sources of the properties above.
