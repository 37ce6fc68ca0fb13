/** Values shared by both versions of the evaluation engine: the request record,
    the elements of a batch, what the scorer hands back, and the errors `evaluate` raises. */
module Common {

  /** A request: target path, HTTP method (`verb`) and body (the empty string means no body). */
  datatype Request = Request(path: string, verb: string, body: string)

  /** One element of the list given to `evaluate`. The list is untyped in the
      source, so an element may be something other than a request. */
  datatype Item = Req(request: Request) | NotARequest

  /** A value returned by the scorer: a finite decimal, a decimal NaN, a
      Python integer (which is not a decimal, but which `statistics` can mix
      with decimals), or any other object (None, a string, ...), which
      `statistics` cannot mix with decimals. */
  datatype Score = Decimal(value: real) | DecimalNaN | Integer(number: int) | Unusable

  /** What one call of the scorer does: return a value, or raise. */
  datatype Reply = Returned(score: Score) | Raised

  /** The scorer as the engine sees it during one `evaluate` call: the reply to
      the call made at a given position of the batch, with the request found there. */
  type Scorer = (nat, Request) -> Reply

  /** The exceptions that end an `evaluate` call, each with the batch position
      being processed when it was raised. */
  datatype Error =
    | RequestTypeError(position: nat)   // the element is not a request
    | ScorerRaised(position: nat)       // the scorer's own exception, propagated
    | ScoreTypeError(position: nat)     // the score is not a decimal
    | InvalidOperation(position: nat)   // a decimal NaN compared with zero
    | StdevTypeError(position: nat)     // statistics.stdev rejecting the history, after the whole batch
    | StdevFailed(position: nat)        // statistics.stdev failing on a decimal NaN in the history, after the whole batch
}
