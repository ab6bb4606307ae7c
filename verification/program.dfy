/**
 * The pieces of `Program.cs` that are not page fetching or HTML extraction: the
 * concurrency limit read from configuration, the request timeout and batch deadline,
 * and `FetchRetailerDataSync`, the program's own copy of the feed fetch (without logging).
 */
module Program {
  import opened Wrappers
  import opened Models
  import RetailerDataFetcher

  /** `HttpClient.Timeout`, in seconds. */
  const RequestTimeoutSeconds: nat := 30
  /** The batch deadline of the `CancellationTokenSource`, in seconds (three minutes). */
  const BatchDeadlineSeconds: nat := 3 * 60

  /** A single request always times out before the batch deadline. */
  lemma RequestTimeoutShorterThanDeadline()
    ensures RequestTimeoutSeconds < BatchDeadlineSeconds
  {
  }

  const DefaultMaxParallelRequests: int := 5

  /** The values `int.TryParse` can produce. */
  type Int32 = x: int | -0x8000_0000 <= x < 0x8000_0000

  /**
   * The concurrency limit. `configured` is what `int.TryParse` made of the
   * `MaxParallelRequests` setting: `None` when it is missing or not an integer.
   */
  method MaxParallelRequests(configured: Option<Int32>) returns (limit: int)
    ensures limit >= 1
    ensures configured.Some? && configured.value > 0 ==> limit == configured.value
    ensures configured.None? || configured.value <= 0 ==> limit == DefaultMaxParallelRequests
  {
    limit := DefaultMaxParallelRequests;
    if configured.Some? && configured.value > 0 {
      limit := configured.value;
    }
  }

  /** What `FetchRetailerDataSync` did: its result and whether a request was sent. */
  datatype SyncFetch<T> = SyncFetch(result: Completion<Option<T>>, requestSent: bool)

  function CatchInSync<T>(e: Exn): SyncFetch<T> {
    if e == HttpRequest || e == TaskCanceled then SyncFetch(Returned(None), true) else SyncFetch(Threw(e), true)
  }

  /**
   * `FetchRetailerDataSync`: the same decision as `RetailerDataFetcher.FetchRetailerData`,
   * written out separately in the source and without its log lines; it agrees with it
   * on every input.
   */
  function FetchRetailerDataSync<T>(sourceUrl: string, absolute: string -> bool,
                                    exchange: Completion<RetailerDataFetcher.Response<T>>): (r: SyncFetch<T>)
    ensures var f := RetailerDataFetcher.FetchRetailerData(sourceUrl, absolute, exchange);
            r.result == f.result && r.requestSent == f.requestSent
  {
    if RetailerDataFetcher.IsNullOrWhiteSpace(sourceUrl) then
      SyncFetch(Returned(None), false)
    else if !absolute(sourceUrl) then
      SyncFetch(Returned(None), false)
    else
      match exchange
      case Threw(e) => CatchInSync(e)
      case Returned(response) =>
        if response.status == RetailerDataFetcher.NotFoundStatus then
          SyncFetch(Returned(None), true)
        else if !RetailerDataFetcher.IsSuccessStatusCode(response.status) then
          CatchInSync(HttpRequest)
        else
          match response.body
          case Returned(document) => SyncFetch(Returned(document), true)
          case Threw(e) => CatchInSync(e)
  }

  /** A 404, any other failure status, and a timed-out request all give `null` after one request. */
  lemma SyncFailuresGiveNull<T>(sourceUrl: string, absolute: string -> bool, status: int, body: Completion<Option<T>>)
    requires !RetailerDataFetcher.IsNullOrWhiteSpace(sourceUrl) && absolute(sourceUrl)
    requires !RetailerDataFetcher.IsSuccessStatusCode(status)
    ensures FetchRetailerDataSync(sourceUrl, absolute, Returned(RetailerDataFetcher.Response(status, body))) == SyncFetch(Returned(None), true)
    ensures FetchRetailerDataSync<T>(sourceUrl, absolute, Threw(TaskCanceled)) == SyncFetch(Returned(None), true)
  {
  }
}
