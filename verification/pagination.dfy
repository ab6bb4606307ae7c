/**
 * `loadStationsForCurrentView` of the front end: the cursor-paginated download of the
 * stations inside the map's bounding box. The API is an input: the sequence of page
 * responses it would give to the successive requests.
 */
module Pagination {
  import opened Wrappers
  import opened JsValues

  /** The map's visible bounds; coordinates are only copied. */
  datatype Bounds<L> = Bounds(west: L, south: L, east: L, north: L)

  /** Reads a `[minLon, minLat, maxLon, maxLat]` array back as bounds. */
  function BboxToBounds<L>(bbox: seq<L>): Bounds<L>
    requires |bbox| == 4
  {
    Bounds(bbox[0], bbox[1], bbox[2], bbox[3])
  }

  /** `boundsToBboxArray`: the bounds as `[minLon, minLat, maxLon, maxLat]`. */
  function BoundsToBboxArray<L>(b: Bounds<L>): (bbox: seq<L>)
    ensures |bbox| == 4 && BboxToBounds(bbox) == b
  {
    [b.west, b.south, b.east, b.north]
  }

  /** The page size asked for. */
  const PageLimit: nat := 1000

  /** One `fuel_stations` request: bounding box, page size and, when there is one, the cursor. */
  datatype StationsRequest<L> = StationsRequest(bbox: seq<L>, limit: nat, cursor: Option<JsValue>)

  /**
   * What `fetchJson` gives for one request: a page (its `data` array, `None` when missing
   * or `null`, and `_meta.cursor`, `undefined` when missing), or a failure (non-ok status
   * or a body that is not JSON).
   */
  datatype PageResponse = Page(data: Option<seq<JsObject>>, cursor: JsValue) | PageFailed

  /** `response.data || []`. */
  function PageStations(p: PageResponse): seq<JsObject>
    requires p.Page?
  {
    if p.data.Some? then p.data.value else []
  }

  /** `response._meta?.cursor || null`: the cursor if truthy. */
  function NextCursor(p: PageResponse): (c: Option<JsValue>)
    requires p.Page?
    ensures c.Some? ==> Truthy(c.value) && c.value == p.cursor
  {
    if Truthy(p.cursor) then Some(p.cursor) else None
  }

  /** The loop goes on after this response: a page with a cursor and at least one station. */
  predicate Continues(p: PageResponse) {
    p.Page? && NextCursor(p).Some? && |PageStations(p)| != 0
  }

  /** The index of the first response after which the loop stops, or `|pages|` if there is none. */
  function FirstStop(pages: seq<PageResponse>): (k: nat)
    ensures k <= |pages|
    ensures forall j :: 0 <= j < k ==> Continues(pages[j])
    ensures k < |pages| ==> !Continues(pages[k])
  {
    if pages == [] then 0
    else if !Continues(pages[0]) then 0
    else 1 + FirstStop(pages[1..])
  }

  /** The stations of `pages`, concatenated in order. */
  function AllStations(pages: seq<PageResponse>): seq<JsObject>
    requires forall j :: 0 <= j < |pages| ==> pages[j].Page?
  {
    if pages == [] then [] else AllStations(pages[..|pages| - 1]) + PageStations(pages[|pages| - 1])
  }

  /** The request the loop sends after `k` responses: the cursor of the last one, if any. */
  function RequestAt<L>(bbox: seq<L>, pages: seq<PageResponse>, k: nat): StationsRequest<L>
    requires k <= |pages|
    requires k > 0 ==> pages[k - 1].Page?
  {
    StationsRequest(bbox, PageLimit, if k == 0 then None else NextCursor(pages[k - 1]))
  }

  /** The first `n` requests. */
  function Requests<L>(bbox: seq<L>, pages: seq<PageResponse>, n: nat): (r: seq<StationsRequest<L>>)
    requires n <= |pages|
    requires forall j :: 0 <= j < n - 1 ==> pages[j].Page?
    ensures |r| == n
    ensures forall k :: 0 <= k < n ==> r[k] == RequestAt(bbox, pages, k)
  {
    if n == 0 then [] else Requests(bbox, pages, n - 1) + [RequestAt(bbox, pages, n - 1)]
  }

  /** How a load ends; `Unfinished` when the responses run out while the server still hands out cursors. */
  datatype LoadResult<L> =
    | Loaded(stations: seq<JsObject>, requests: seq<StationsRequest<L>>)
    | LoadFailed(requests: seq<StationsRequest<L>>)
    | Unfinished(requests: seq<StationsRequest<L>>)

  /** Reference meaning of the loop, by the position of the first response that stops it. */
  function Paginate<L>(bbox: seq<L>, pages: seq<PageResponse>): LoadResult<L> {
    var k := FirstStop(pages);
    if k == |pages| then Unfinished(Requests(bbox, pages, k))
    else if pages[k].PageFailed? then LoadFailed(Requests(bbox, pages, k + 1))
    else Loaded(AllStations(pages[..k + 1]), Requests(bbox, pages, k + 1))
  }

  /**
   * The `do { ... } while (true)` loop: request a page (with the cursor only if there is
   * one), append its stations, and stop at a response without cursor or stations; a
   * failed request abandons the load.
   */
  method FetchAllPages<L>(bounds: Bounds<L>, pages: seq<PageResponse>) returns (result: LoadResult<L>)
    ensures result == Paginate(BoundsToBboxArray(bounds), pages)
  {
    var bbox := BoundsToBboxArray(bounds);
    var allStations: seq<JsObject> := [];
    var cursor: Option<JsValue> := None;
    var requests: seq<StationsRequest<L>> := [];
    var i := 0;
    while true
      invariant i <= FirstStop(pages)
      invariant allStations == AllStations(pages[..i])
      invariant cursor == if i == 0 then None else NextCursor(pages[i - 1])
      invariant requests == Requests(bbox, pages, i)
      decreases |pages| - i
    {
      if i == |pages| {
        return Unfinished(requests);
      }
      requests := requests + [StationsRequest(bbox, PageLimit, cursor)];
      var response := pages[i];
      if response.PageFailed? {
        return LoadFailed(requests);
      }
      var stations := if response.data.Some? then response.data.value else [];
      assert pages[..i + 1][..i] == pages[..i];
      allStations := allStations + stations;
      cursor := if Truthy(response.cursor) then Some(response.cursor) else None;
      i := i + 1;
      if cursor.None? || |stations| == 0 {
        return Loaded(allStations, requests);
      }
    }
  }

  /**
   * A completed load holds the pages' stations concatenated in request order; every
   * page but the last had a cursor and stations, and the last lacked one or the other.
   */
  lemma LoadedIsConcatenation<L>(bbox: seq<L>, pages: seq<PageResponse>)
    requires Paginate(bbox, pages).Loaded?
    ensures var r := Paginate(bbox, pages); var n := |r.requests|;
            0 < n <= |pages|
            && (forall j :: 0 <= j < n - 1 ==> Continues(pages[j]))
            && pages[n - 1].Page? && !Continues(pages[n - 1])
            && r.stations == AllStations(pages[..n])
  {
  }

  /** A failed load stopped at a failed request; every page before it continued. */
  lemma FailedStopsAtFailure<L>(bbox: seq<L>, pages: seq<PageResponse>)
    requires Paginate(bbox, pages).LoadFailed?
    ensures var n := |Paginate(bbox, pages).requests|;
            0 < n <= |pages| && pages[n - 1].PageFailed? && forall j :: 0 <= j < n - 1 ==> Continues(pages[j])
  {
  }

  /**
   * The first request carries no cursor; each later one carries exactly the truthy cursor
   * of the response before it.
   */
  lemma CursorOnlyWhenPresent<L>(bbox: seq<L>, pages: seq<PageResponse>)
    ensures var r := Paginate(bbox, pages).requests;
            (|r| > 0 ==> r[0].cursor.None?)
            && forall k :: 0 < k < |r| ==> pages[k - 1].Page? && r[k].cursor.Some? && r[k].cursor.value == pages[k - 1].cursor
                                           && Truthy(r[k].cursor.value)
  {
  }

  /** The stations of consecutive pages, concatenated. */
  lemma {:induction false} AllStationsAppend(xs: seq<PageResponse>, ys: seq<PageResponse>)
    requires forall j :: 0 <= j < |xs| ==> xs[j].Page?
    requires forall j :: 0 <= j < |ys| ==> ys[j].Page?
    ensures forall j :: 0 <= j < |xs + ys| ==> (xs + ys)[j].Page?
    ensures AllStations(xs + ys) == AllStations(xs) + AllStations(ys)
  {
    if ys == [] {
      assert xs + ys == xs;
    } else {
      var zs := xs + ys;
      assert zs[..|zs| - 1] == xs + ys[..|ys| - 1];
      AllStationsAppend(xs, ys[..|ys| - 1]);
    }
  }
}
