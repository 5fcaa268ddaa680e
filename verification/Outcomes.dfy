/** Results and the fixed vocabulary of reasons a decision can fail with. */
module Outcomes {

  datatype Option<+T> = None | Some(value: T) {
    function GetOr(default: T): T {
      if Some? then value else default
    }
  }

  datatype Result<+T, +E> = Success(value: T) | Failure(error: E)

  /** The codes a `DecisionError` carries across the runtime. */
  datatype Code =
    | InvalidRequest | ContextTooLong | UnsupportedTokenizer | InvalidScores | BackendError
    | BackendUnavailable | InferenceCancelled | InferenceTimeout | CalibrationOutOfScope
}
