/** Small value wrappers shared by the C# side of the model. */
module Wrappers {

  /** A C# nullable reference or nullable value: `None` stands for `null`. */
  datatype Option<+T> = None | Some(value: T)

  /** How a C# call ended: it returned a value, or it threw an exception of the given kind. */
  datatype Completion<+T> = Returned(value: T) | Threw(error: Exn)

  /**
   * The exception kinds that matter to the catch clauses of the fetcher.
   * `TaskCanceled` is a subclass of `OperationCanceled` in .NET; the two are kept apart
   * because `FetchRetailerDataAsync` catches only the former while the per-item handler
   * catches the latter (and so both). `ArgumentOutOfRange` is what `new SemaphoreSlim(n)`
   * throws for a negative `n`, and what `new CancellationTokenSource(timeout)` throws for a
   * timeout it does not accept.
   */
  datatype Exn = HttpRequest | TaskCanceled | OperationCanceled | Json | ArgumentOutOfRange | Other

  /** `catch (OperationCanceledException)` also catches the subclass `TaskCanceledException`. */
  predicate IsOperationCanceled(e: Exn) {
    e == TaskCanceled || e == OperationCanceled
  }
}
