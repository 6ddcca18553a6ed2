/** Option and Result, the stock failure-carrying datatypes. */
module Wrappers {

  datatype Option<+T> = None | Some(value: T)

  datatype Result<+R, +E> = Success(value: R) | Failure(error: E)
}

/**
 * What a foreign evaluator call (Symja's ExprEvaluator.eval, exp4j's
 * ExpressionBuilder.build().evaluate()) can do: produce a value, already
 * rendered with toString(), or throw an exception whose message may be null.
 */
module ForeignEval {
  import opened Wrappers

  datatype Outcome = Value(text: string) | Thrown(message: Option<string>)

  /** Kotlin's `e.message ?: fallback`. */
  function MessageOr(message: Option<string>, fallback: string): (r: string)
    ensures message.Some? ==> r == message.value
    ensures message.None? ==> r == fallback
  {
    match message
    case Some(m) => m
    case None => fallback
  }
}
