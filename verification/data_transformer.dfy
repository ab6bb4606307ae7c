/**
 * The pure transform from a fetched feed to the two output record streams
 * (`Services/DataTransformer.cs`).
 */
module DataTransformer {
  import opened Wrappers
  import opened Models

  /** The retailer record: name and URL from the table row, last update from the feed, verbatim. */
  function TransformRetailer<F, D>(retailer: Retailer, dto: RetailerDto<F, D>): (r: RetailerOutput)
    ensures r.name == retailer.name && r.sourceUrl == retailer.sourceUrl
    ensures r.lastUpdated == dto.lastUpdated
  {
    RetailerOutput(retailer.name, retailer.sourceUrl, dto.lastUpdated)
  }

  /** The line written to `retailers.jsonl` reads back as the table row's name and URL and the feed's text. */
  lemma RetailerLineReadsBack<F, D>(retailer: Retailer, dto: RetailerDto<F, D>)
    ensures ParseRetailer<F, D>(SerializeRetailer(TransformRetailer(retailer, dto)))
         == Some(RetailerOutput(retailer.name, retailer.sourceUrl, dto.lastUpdated))
  {
    RetailerRoundTrip<F, D>(TransformRetailer(retailer, dto));
  }

  /** The extension data: exactly the fuel codes whose price is present, with those prices. */
  function NonNullPrices<D>(prices: map<string, Option<D>>): (ext: map<string, D>)
    ensures ext.Keys <= prices.Keys
    ensures forall k :: k in prices ==> (k in ext <==> prices[k].Some?)
    ensures forall k :: k in ext ==> prices[k] == Some(ext[k])
  {
    map k | k in prices && prices[k].Some? :: prices[k].value
  }

  /** Every price of `ext` present (never null); the inverse direction of `NonNullPrices`. */
  function AllPresent<D>(ext: map<string, D>): (prices: map<string, Option<D>>)
    ensures prices.Keys == ext.Keys
  {
    map k | k in ext :: Some(ext[k])
  }

  /** Filtering a map that has no nulls gives back the original prices. */
  lemma NonNullPricesOfAllPresent<D>(ext: map<string, D>)
    ensures NonNullPrices(AllPresent(ext)) == ext
  {
  }

  /** Filtering changes the map exactly when it held a null price. */
  lemma NonNullPricesDropsOnlyNulls<D>(prices: map<string, Option<D>>)
    ensures AllPresent(NonNullPrices(prices)) == prices <==> forall k :: k in prices ==> prices[k].Some?
  {
    var back := AllPresent(NonNullPrices(prices));
    if forall k :: k in prices ==> prices[k].Some? {
      assert back.Keys == prices.Keys;
      assert forall k :: k in back ==> back[k] == prices[k];
    } else {
      var k :| k in prices && prices[k].None?;
      assert k !in back;
    }
  }

  /** `{"E10": p, "B7": null}` has the extension data `{"E10": p}`. */
  lemma NullPriceDropped<D>(p: D)
    ensures NonNullPrices(map["E10" := Some(p), "B7" := None]) == map["E10" := p]
  {
    var ext := NonNullPrices(map["E10" := Some(p), "B7" := None]);
    assert "E10" in ext && "B7" !in ext;
    assert ext.Keys == {"E10"};
  }

  /** The record for one station of the feed. */
  function TransformStation<F, D>(retailerName: string, station: Station<F, D>): (o: StationOutput<F, D>)
    ensures o.retailerName == retailerName
    ensures o.siteId == station.siteId && o.brand == station.brand
    ensures o.address == station.address && o.postcode == station.postcode
    ensures o.latitude.None? <==> station.location.None?
    ensures o.longitude.None? <==> station.location.None?
    ensures station.location.Some? ==>
              o.latitude == Some(station.location.value.latitude) && o.longitude == Some(station.location.value.longitude)
    ensures o.prices == station.prices
    ensures o.extensionData.None? <==> station.prices.None?
    ensures station.prices.Some? ==>
              forall k :: (k in o.extensionData.value <==> k in station.prices.value && station.prices.value[k].Some?)
    ensures station.prices.Some? ==>
              forall k :: k in o.extensionData.value ==> station.prices.value[k] == Some(o.extensionData.value[k])
  {
    StationOutput(
      retailerName,
      station.siteId,
      station.brand,
      station.address,
      station.postcode,
      if station.location.Some? then Some(station.location.value.latitude) else None,
      if station.location.Some? then Some(station.location.value.longitude) else None,
      station.prices,
      if station.prices.Some? then Some(NonNullPrices(station.prices.value)) else None)
  }

  /** The per-station records, one per station and in the feed's order. */
  function TransformEach<F, D>(retailerName: string, stations: seq<Station<F, D>>): (out: seq<StationOutput<F, D>>)
    ensures |out| == |stations|
    ensures forall i :: 0 <= i < |out| ==> out[i] == TransformStation(retailerName, stations[i])
  {
    if stations == [] then []
    else [TransformStation(retailerName, stations[0])] + TransformEach(retailerName, stations[1..])
  }

  /** The station records of a feed: none when `stations` is absent. */
  function TransformStations<F, D>(retailerName: string, dto: RetailerDto<F, D>): (out: seq<StationOutput<F, D>>)
    ensures dto.stations.None? ==> out == []
    ensures dto.stations.Some? ==> |out| == |dto.stations.value|
    ensures dto.stations.Some? ==>
              forall i :: 0 <= i < |out| ==> out[i] == TransformStation(retailerName, dto.stations.value[i])
  {
    match dto.stations
    case None => []
    case Some(stations) => TransformEach(retailerName, stations)
  }

  /** An absent station list and an empty one give the same (empty) output. */
  lemma AbsentStationsLikeEmpty<F, D>(retailerName: string, dto: RetailerDto<F, D>)
    ensures TransformStations(retailerName, dto.(stations := None)) == TransformStations(retailerName, dto.(stations := Some([])))
    ensures TransformStations(retailerName, dto.(stations := None)) == []
  {
  }

  /** Every station record of a feed names the retailer whose record the same feed produced. */
  lemma StationsBelongToRetailer<F, D>(retailer: Retailer, dto: RetailerDto<F, D>)
    ensures forall o :: o in TransformStations(retailer.name, dto) ==> o.retailerName == TransformRetailer(retailer, dto).name
  {
  }

  /** The station records of a concatenated list are the records of each part, in order. */
  lemma {:induction false} TransformEachAppend<F, D>(retailerName: string, xs: seq<Station<F, D>>, ys: seq<Station<F, D>>)
    ensures TransformEach(retailerName, xs + ys) == TransformEach(retailerName, xs) + TransformEach(retailerName, ys)
  {
    if xs == [] {
      assert xs + ys == ys;
    } else {
      assert (xs + ys)[1..] == xs[1..] + ys;
      TransformEachAppend(retailerName, xs[1..], ys);
    }
  }

  /**
   * A fuel code that is not one of the named members appears in the written station
   * line exactly when the station's price for it is present (not null).
   */
  lemma WrittenPriceMembers<F, D>(retailerName: string, station: Station<F, D>, k: string)
    requires k !in StationKeys
    ensures k in Keys(SerializeStation(TransformStation(retailerName, station)))
        <==> station.prices.Some? && k in station.prices.value && station.prices.value[k].Some?
  {
    var o := TransformStation(retailerName, station);
    StationKeysAreNamedPlusExtension(o);
  }
}
