/** The .NET exception kinds the dev-server bridge raises or lets through. */
module Exceptions {
  import opened Wrappers

  datatype Exception =
      /** `ArgumentNullException(paramName)` */
    | ArgumentNull(paramName: string)
      /** `ArgumentException(message, paramName)` */
    | Argument(message: string, paramName: string)
      /** `ArgumentOutOfRangeException(paramName)` */
    | ArgumentOutOfRange(paramName: string)
      /** `InvalidOperationException(message, innerException)` */
    | InvalidOperation(message: string, cause: Option<Exception>)
      /** `EndOfStreamException`: a line stream ended before the awaited line */
    | EndOfStream
      /** `TimeoutException(message)` */
    | Timeout(message: string)
      /** `AggregateException` wrapping one exception, as thrown by `Task.Result` and `Task.Wait()` */
    | Aggregate(wrapped: Exception)
      /** `TaskCanceledException` */
    | TaskCanceled
      /** Any other exception, kept opaque */
    | Other(typeName: string, message: string)

  /** Strips every `AggregateException` layer, exposing the exception that was first thrown. */
  function Innermost(e: Exception): (r: Exception)
    ensures !r.Aggregate?
    ensures !e.Aggregate? ==> r == e
  {
    if e.Aggregate? then Innermost(e.wrapped) else e
  }
}
