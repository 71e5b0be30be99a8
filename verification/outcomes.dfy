/** Results and the exceptions the core raises, by their Java class. */
module Outcomes {

  datatype Option<+T> = None | Some(value: T)

  /** The exception classes that leave the core, with the messages the source builds. */
  datatype Failure =
    | IllegalState(message: string)           // IllegalStateException
    | IllegalArgument(message: string)        // IllegalArgumentException
    | UnsupportedOperation(message: string)   // UnsupportedOperationException
    | IOFailure(message: string, cause: Option<string>)  // IOException, optionally wrapping a cause
    | InitializerError(inner: Failure)        // ExceptionInInitializerError wrapping a checked exception
    | NullPointer                             // NullPointerException
    | OverlappingLock                         // OverlappingFileLockException from FileChannel.tryLock

  /** A value or the exception that replaced it. */
  datatype Result<+T> = Ok(value: T) | Err(error: Failure) {
    predicate IsFailure() { Err? }
    function PropagateFailure<U>(): Result<U> requires Err? { Err(error) }
    function Extract(): T requires Ok? { value }
  }

  /** A void call: it returned normally or threw. */
  datatype Outcome = Pass | Fail(error: Failure) {
    predicate IsFailure() { Fail? }
    function PropagateFailure(): Outcome requires Fail? { this }
  }
}
