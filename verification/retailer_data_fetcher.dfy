/**
 * The fetcher of one retailer feed and the per-retailer task of the batch
 * (`Services/RetailerDataFetcher.cs`). The HTTP exchange is an input: the response
 * `SendAsync` would produce (or the exception it would throw), and what decoding its
 * body would produce. A fetch that is never sent never looks at it.
 */
module RetailerDataFetcher {
  import opened Wrappers
  import opened Models

  /** `Char.IsWhiteSpace`: the Unicode space, line and paragraph separators, U+0009..U+000D and U+0085. */
  predicate IsWhiteSpace(c: char) {
    c == ' ' || ('\t' <= c <= '\r') || c == '\U{0085}' || c == '\U{00A0}' || c == '\U{1680}'
    || ('\U{2000}' <= c <= '\U{200A}') || c == '\U{2028}' || c == '\U{2029}' || c == '\U{202F}'
    || c == '\U{205F}' || c == '\U{3000}'
  }

  /** `string.IsNullOrWhiteSpace` on a non-null string: empty or only white space. */
  predicate IsNullOrWhiteSpace(s: string) {
    forall i :: 0 <= i < |s| ==> IsWhiteSpace(s[i])
  }

  /**
   * An HTTP response: its status code and the outcome of `ReadFromJsonAsync` on its body
   * (the decoded document, `null` for a JSON `null` body, or the exception thrown).
   */
  datatype Response<T> = Response(status: int, body: Completion<Option<T>>)

  const NotFoundStatus := 404

  /** `EnsureSuccessStatusCode` throws `HttpRequestException` outside 200..299. */
  predicate IsSuccessStatusCode(status: int) {
    200 <= status <= 299
  }

  /** The two exception kinds `FetchRetailerDataAsync` catches and turns into `null`. */
  predicate CaughtByFetcher(e: Exn) {
    e == HttpRequest || e == TaskCanceled
  }

  datatype Severity = Warning | Error

  /** What one fetch did: its result, whether a request was sent, and the severity of what it logged. */
  datatype FetchReport<T> = FetchReport(result: Completion<Option<T>>, requestSent: bool, log: Option<Severity>)

  /** The two catch clauses of the fetcher; any other exception propagates. */
  function CatchInFetcher<T>(e: Exn): (r: FetchReport<T>)
    ensures r.requestSent
    ensures CaughtByFetcher(e) ==> r.result == Returned(None) && r.log.Some?
    ensures !CaughtByFetcher(e) ==> r.result == Threw(e) && r.log.None?
  {
    if e == HttpRequest then FetchReport(Returned(None), true, Some(Error))
    else if e == TaskCanceled then FetchReport(Returned(None), true, Some(Warning))
    else FetchReport(Threw(e), true, None)
  }

  /**
   * `FetchRetailerDataAsync`: blank URL and non-absolute URL give `null` without a
   * request; otherwise one GET whose outcome is classified. `absolute` stands for
   * `Uri.TryCreate(url, UriKind.Absolute, out _)`.
   */
  function FetchRetailerData<T>(sourceUrl: string, absolute: string -> bool, exchange: Completion<Response<T>>): (r: FetchReport<T>)
    ensures r.requestSent <==> !IsNullOrWhiteSpace(sourceUrl) && absolute(sourceUrl)
    ensures IsNullOrWhiteSpace(sourceUrl) ==> r == FetchReport(Returned(None), false, None)
    ensures !IsNullOrWhiteSpace(sourceUrl) && !absolute(sourceUrl) ==> r == FetchReport(Returned(None), false, Some(Warning))
    // a document is returned only when a 2xx response decoded to it
    ensures r.result.Returned? && r.result.value.Some? ==>
              r.requestSent && exchange.Returned? && IsSuccessStatusCode(exchange.value.status) && exchange.value.body == r.result
    ensures r.requestSent && exchange.Returned? && IsSuccessStatusCode(exchange.value.status) && exchange.value.body.Returned? ==>
              r.result == exchange.value.body
    // 404 is a logged absence; any other failure status is an HTTP error turned into null
    ensures r.requestSent && exchange.Returned? && exchange.value.status == NotFoundStatus ==>
              r == FetchReport(Returned(None), true, Some(Warning))
    ensures r.requestSent && exchange.Returned? && exchange.value.status != NotFoundStatus && !IsSuccessStatusCode(exchange.value.status) ==>
              r == FetchReport(Returned(None), true, Some(Error))
    // timeouts and HTTP errors from the request itself become null
    ensures r.requestSent && exchange.Threw? && CaughtByFetcher(exchange.error) ==> r.result == Returned(None)
    // only the other exceptions escape, from the request or from decoding a 2xx body
    ensures r.result.Threw? ==>
              r.requestSent && !CaughtByFetcher(r.result.error)
              && (exchange == Threw(r.result.error)
                  || (exchange.Returned? && IsSuccessStatusCode(exchange.value.status) && exchange.value.body == Threw(r.result.error)))
  {
    if IsNullOrWhiteSpace(sourceUrl) then
      FetchReport(Returned(None), false, None)
    else if !absolute(sourceUrl) then
      FetchReport(Returned(None), false, Some(Warning))
    else
      match exchange
      case Threw(e) => CatchInFetcher(e)
      case Returned(response) =>
        if response.status == NotFoundStatus then
          FetchReport(Returned(None), true, Some(Warning))
        else if !IsSuccessStatusCode(response.status) then
          CatchInFetcher(HttpRequest)
        else
          match response.body
          case Returned(document) => FetchReport(Returned(document), true, None)
          case Threw(e) => CatchInFetcher(e)
  }

  /** A malformed JSON body on a 2xx response escapes the fetcher as the decoder's exception. */
  lemma MalformedBodyEscapesFetcher<T>(sourceUrl: string, absolute: string -> bool, status: int)
    requires !IsNullOrWhiteSpace(sourceUrl) && absolute(sourceUrl) && IsSuccessStatusCode(status)
    ensures FetchRetailerData<T>(sourceUrl, absolute, Returned(Response(status, Threw(Json)))).result == Threw(Json)
  {
  }

  // ---------------------------------------------------------------------------
  // The admission gate and the per-retailer task of `FetchAllRetailersAsync`.

  datatype WaitResult = Acquired | WaitCanceled | Blocked

  /**
   * `SemaphoreSlim`, sequentially: `count` permits are free. The ghost counters record
   * how many permits were ever taken and given back.
   */
  class Semaphore {
    var count: nat
    ghost const initialCount: nat
    ghost var acquired: nat
    ghost var released: nat

    ghost predicate Valid()
      reads this
    {
      count + acquired == initialCount + released
    }

    constructor (initial: nat)
      ensures Valid()
      ensures count == initial && initialCount == initial && acquired == 0 && released == 0
    {
      count := initial;
      initialCount := initial;
      acquired, released := 0, 0;
    }

    /**
     * `WaitAsync(token)`: an already-cancelled token throws without taking a permit;
     * otherwise a free permit is taken, and with none free the caller is still waiting.
     */
    method WaitAsync(canceled: bool) returns (w: WaitResult)
      requires Valid()
      modifies this
      ensures Valid()
      ensures released == old(released)
      ensures canceled ==> w == WaitCanceled && count == old(count) && acquired == old(acquired)
      ensures !canceled && old(count) > 0 ==> w == Acquired && count == old(count) - 1 && acquired == old(acquired) + 1
      ensures !canceled && old(count) == 0 ==> w == Blocked && count == 0 && acquired == old(acquired)
    {
      if canceled {
        w := WaitCanceled;
      } else if count > 0 {
        count := count - 1;
        acquired := acquired + 1;
        w := Acquired;
      } else {
        w := Blocked;
      }
    }

    method Release()
      requires Valid()
      modifies this
      ensures Valid()
      ensures count == old(count) + 1 && released == old(released) + 1 && acquired == old(acquired)
    {
      count := count + 1;
      released := released + 1;
    }
  }

  /**
   * What a retailer's task reports: the log line of each handler path, a cancellation
   * while waiting for a permit (it escapes the task), or still waiting (no permit free
   * and the deadline has not fired).
   */
  datatype ItemReport =
    | Fetched(stationCount: nat, lastUpdated: Option<string>)
    | FetchFailed
    | CancelledCaught
    | ErrorCaught(error: Exn)
    | WaitCancelled
    | StillWaiting

  /** A task's environment: whether the batch deadline fired while it waited for a permit, and its HTTP exchange. */
  datatype ItemEnv<T> = ItemEnv(canceledWhileWaiting: bool, exchange: Completion<Response<T>>)

  /** `Stations?.Length ?? 0`. */
  function StationCount<F, D>(dto: RetailerDto<F, D>): nat {
    if dto.stations.Some? then |dto.stations.value| else 0
  }

  /** The `try` body and its two catch clauses, given what the fetch returned or threw. */
  function HandlerReport<F, D>(fetched: Completion<Option<RetailerDto<F, D>>>): (report: ItemReport)
    ensures report != WaitCancelled && report != StillWaiting
    ensures report.Fetched? <==> fetched.Returned? && fetched.value.Some?
    ensures report == FetchFailed <==> fetched == Returned(None)
    ensures fetched.Threw? ==> (report == CancelledCaught <==> IsOperationCanceled(fetched.error))
    ensures fetched.Threw? && !IsOperationCanceled(fetched.error) ==> report == ErrorCaught(fetched.error)
    ensures fetched.Returned? && fetched.value.Some? ==>
              var dto := fetched.value.value;
              report.stationCount == (if dto.stations.Some? then |dto.stations.value| else 0)
              && report.lastUpdated == dto.lastUpdated
  {
    match fetched
    case Returned(None) => FetchFailed
    case Returned(Some(dto)) => Fetched(StationCount(dto), dto.lastUpdated)
    case Threw(e) => if IsOperationCanceled(e) then CancelledCaught else ErrorCaught(e)
  }

  /** The report of a task that is not left waiting. */
  function ItemOutcome<F, D>(retailer: Retailer, absolute: string -> bool, env: ItemEnv<RetailerDto<F, D>>): (report: ItemReport)
    ensures report == WaitCancelled <==> env.canceledWhileWaiting
    ensures report != StillWaiting
  {
    if env.canceledWhileWaiting then WaitCancelled
    else HandlerReport(FetchRetailerData(retailer.sourceUrl, absolute, env.exchange).result)
  }

  /** A malformed feed is logged by the per-item handler and not rethrown. */
  lemma MalformedFeedLoggedNotRethrown<F, D>(retailer: Retailer, absolute: string -> bool, status: int)
    requires !IsNullOrWhiteSpace(retailer.sourceUrl) && absolute(retailer.sourceUrl) && IsSuccessStatusCode(status)
    ensures ItemOutcome<F, D>(retailer, absolute, ItemEnv(false, Returned(Response(status, Threw(Json))))) == ErrorCaught(Json)
  {
    MalformedBodyEscapesFetcher<RetailerDto<F, D>>(retailer.sourceUrl, absolute, status);
  }

  /**
   * One retailer's task: wait for a permit, then `try` the fetch, `catch`, and
   * `finally` give the permit back. A cancelled wait happens before the `try`, so it
   * neither reaches a handler nor releases.
   */
  method RunItem<F, D>(semaphore: Semaphore, retailer: Retailer, absolute: string -> bool, env: ItemEnv<RetailerDto<F, D>>)
    returns (report: ItemReport)
    requires semaphore.Valid()
    modifies semaphore
    ensures semaphore.Valid()
    ensures semaphore.count == old(semaphore.count)
    ensures report == if old(semaphore.count) == 0 && !env.canceledWhileWaiting then StillWaiting else ItemOutcome(retailer, absolute, env)
    ensures report == WaitCancelled || report == StillWaiting ==>
              semaphore.acquired == old(semaphore.acquired) && semaphore.released == old(semaphore.released)
    ensures report != WaitCancelled && report != StillWaiting ==>
              semaphore.acquired == old(semaphore.acquired) + 1 && semaphore.released == old(semaphore.released) + 1
  {
    var w := semaphore.WaitAsync(env.canceledWhileWaiting);
    if w == WaitCanceled {
      return WaitCancelled;
    }
    if w == Blocked {
      return StillWaiting;
    }
    // try
    var fetched := FetchRetailerData(retailer.sourceUrl, absolute, env.exchange);
    match fetched.result {
      case Returned(None) =>
        report := FetchFailed;
      case Returned(Some(dto)) =>
        report := Fetched(StationCount(dto), dto.lastUpdated);
      case Threw(e) =>
        // catch (OperationCanceledException) / catch (Exception)
        report := if IsOperationCanceled(e) then CancelledCaught else ErrorCaught(e);
    }
    // finally
    semaphore.Release();
  }

  /**
   * How the batch ends: `Task.WhenAll` completes, throws, or is still waiting; or the
   * method throws before any task starts.
   */
  datatype BatchEnd = AllCompleted | WhenAllThrows(error: Exn) | StillRunning | ThrewBeforeStart(error: Exn)

  /** The report of the task for `retailer` when it is run on a gate of `permits` free permits. */
  function ExpectedReport<F, D>(permits: nat, retailer: Retailer, absolute: string -> bool, env: ItemEnv<RetailerDto<F, D>>): ItemReport {
    if permits == 0 && !env.canceledWhileWaiting then StillWaiting else ItemOutcome(retailer, absolute, env)
  }

  /**
   * `FetchAllRetailersAsync`, with the tasks run one after another. A negative limit makes
   * the `SemaphoreSlim` constructor throw before any task starts. `timeoutValid` says whether
   * `new CancellationTokenSource(timeout)` accepts the timeout; when it does not, that
   * constructor throws, again before any task starts. Otherwise each task gives
   * its permit back, so every task finds all `maxParallelRequests` permits free and the
   * gate ends as it started. A task cancelled while waiting makes `Task.WhenAll` throw.
   */
  method FetchAllRetailers<F, D>(retailers: seq<Retailer>, maxParallelRequests: int, absolute: string -> bool,
                                 envs: seq<ItemEnv<RetailerDto<F, D>>>, timeoutValid: bool)
    returns (reports: seq<ItemReport>, end: BatchEnd, permitsAfter: Option<nat>)
    requires |envs| == |retailers|
    ensures maxParallelRequests < 0 || !timeoutValid ==>
              reports == [] && end == ThrewBeforeStart(ArgumentOutOfRange) && permitsAfter == None
    ensures maxParallelRequests >= 0 && timeoutValid ==> |reports| == |retailers| && permitsAfter == Some(maxParallelRequests)
    ensures maxParallelRequests > 0 && timeoutValid ==>
              forall i :: 0 <= i < |reports| ==> reports[i] == ItemOutcome(retailers[i], absolute, envs[i])
    ensures maxParallelRequests == 0 && timeoutValid ==>
              forall i :: 0 <= i < |reports| ==> reports[i] == if envs[i].canceledWhileWaiting then WaitCancelled else StillWaiting
    ensures end == StillRunning <==>
              maxParallelRequests == 0 && timeoutValid && exists i :: 0 <= i < |envs| && !envs[i].canceledWhileWaiting
    ensures end == WhenAllThrows(TaskCanceled) <==>
              maxParallelRequests >= 0 && timeoutValid && end != StillRunning
              && exists i :: 0 <= i < |envs| && envs[i].canceledWhileWaiting
    ensures end == AllCompleted <==>
              maxParallelRequests >= 0 && timeoutValid && (maxParallelRequests > 0 || |envs| == 0)
              && forall i :: 0 <= i < |envs| ==> !envs[i].canceledWhileWaiting
    ensures end.WhenAllThrows? ==> end.error == TaskCanceled
  {
    if maxParallelRequests < 0 {
      return [], ThrewBeforeStart(ArgumentOutOfRange), None;
    }
    var semaphore := new Semaphore(maxParallelRequests);
    if !timeoutValid {
      // `new CancellationTokenSource(timeout)` throws; `using` disposes the semaphore
      return [], ThrewBeforeStart(ArgumentOutOfRange), None;
    }
    reports := [];
    var i := 0;
    while i < |retailers|
      invariant 0 <= i <= |retailers|
      invariant semaphore.Valid() && semaphore.count == maxParallelRequests
      invariant |reports| == i
      invariant forall k :: 0 <= k < i ==> reports[k] == ExpectedReport(maxParallelRequests, retailers[k], absolute, envs[k])
    {
      var report := RunItem(semaphore, retailers[i], absolute, envs[i]);
      reports := reports + [report];
      i := i + 1;
    }
    permitsAfter := Some(semaphore.count);
    assert forall k :: 0 <= k < |reports| ==> (reports[k] == WaitCancelled <==> envs[k].canceledWhileWaiting);
    assert maxParallelRequests == 0 && |reports| > 0 ==> reports[0] == StillWaiting || reports[0] == WaitCancelled;
    if exists k :: 0 <= k < |reports| && reports[k] == StillWaiting {
      end := StillRunning;
    } else if exists k :: 0 <= k < |reports| && reports[k] == WaitCancelled {
      end := WhenAllThrows(TaskCanceled);
    } else {
      end := AllCompleted;
    }
  }
}
