/**
 * The records the scraper maps between: the loosely typed retailer feed (`RetailerDto`),
 * and the two output records written one per line (`RetailerOutput`, `StationOutput`),
 * together with what System.Text.Json writes for each output record.
 *
 * Floats (coordinates) are the type parameter `F` and decimals (prices) the type
 * parameter `D`: the program only ever copies them.
 */
module Models {
  import opened Wrappers

  /** One row of the participating-retailers table: display name and feed URL. */
  datatype Retailer = Retailer(name: string, sourceUrl: string)

  /** A present `location` always carries both coordinates. */
  datatype Location<F> = Location(latitude: F, longitude: F)

  /**
   * A station of the feed: every field independently optional; `prices` is an open
   * map from retailer-chosen fuel codes to individually nullable prices.
   */
  datatype Station<F, D> = Station(
    siteId: Option<string>,
    brand: Option<string>,
    address: Option<string>,
    postcode: Option<string>,
    location: Option<Location<F>>,
    prices: Option<map<string, Option<D>>>)

  /** The decoded feed document; both top-level members are optional, `stations` is ordered. */
  datatype RetailerDto<F, D> = RetailerDto(lastUpdated: Option<string>, stations: Option<seq<Station<F, D>>>)

  /** Output record of `retailers.jsonl`: name and source URL required, last update optional. */
  datatype RetailerOutput = RetailerOutput(name: string, sourceUrl: string, lastUpdated: Option<string>)

  /**
   * Output record of `stations.jsonl`. `prices` is kept on the record but never written;
   * `extensionData` entries are written as top-level members next to the named ones.
   */
  datatype StationOutput<F, D> = StationOutput(
    retailerName: string,
    siteId: Option<string>,
    brand: Option<string>,
    address: Option<string>,
    postcode: Option<string>,
    latitude: Option<F>,
    longitude: Option<F>,
    prices: Option<map<string, Option<D>>>,
    extensionData: Option<map<string, D>>)

  // ---------------------------------------------------------------------------
  // Serialization with the default serializer options (null members are written as
  // `null`, not omitted).

  /** A JSON value the output records can hold. */
  datatype JsonValue<F, D> = JsonNull | JsonString(s: string) | JsonFloat(f: F) | JsonDecimal(d: D)

  /**
   * A serialized JSON object: the named members in declaration order, followed by the
   * extension-data members (whose order is that of the dictionary and is not modelled).
   */
  datatype JsonObject<F, D> = JsonObject(named: seq<(string, JsonValue<F, D>)>, extension: map<string, D>)

  const RetailerKeys: seq<string> := ["name", "source_url", "last_updated"]
  const StationKeys: seq<string> := ["retailer_name", "site_id", "brand", "address", "postcode", "latitude", "longitude"]

  function StringOrNull<F, D>(o: Option<string>): JsonValue<F, D> {
    match o
    case None => JsonNull
    case Some(s) => JsonString(s)
  }

  function FloatOrNull<F, D>(o: Option<F>): JsonValue<F, D> {
    match o
    case None => JsonNull
    case Some(f) => JsonFloat(f)
  }

  function NamesOf<V>(props: seq<(string, V)>): (names: seq<string>)
    ensures |names| == |props|
    ensures forall i :: 0 <= i < |props| ==> names[i] == props[i].0
  {
    if props == [] then [] else [props[0].0] + NamesOf(props[1..])
  }

  /** The top-level member names of a serialized object. */
  function Keys<F, D>(o: JsonObject<F, D>): set<string> {
    (set i | 0 <= i < |o.named| :: o.named[i].0) + o.extension.Keys
  }

  /** Value of the first named member called `key`, if any. */
  function Lookup<V>(props: seq<(string, V)>, key: string): (r: Option<V>)
    ensures r.Some? <==> exists i :: 0 <= i < |props| && props[i].0 == key
    ensures forall i :: 0 <= i < |props| && props[i].0 == key && (forall j :: 0 <= j < i ==> props[j].0 != key) ==>
                          r == Some(props[i].1)
  {
    if props == [] then None
    else if props[0].0 == key then Some(props[0].1)
    else
      var r := Lookup(props[1..], key);
      assert forall i :: 1 <= i < |props| ==> props[i] == props[1..][i - 1];
      r
  }

  /** The first member called `key` is the one found, with its own value. */
  lemma {:induction false} LookupFirst<V>(props: seq<(string, V)>, i: nat)
    requires i < |props|
    requires forall j :: 0 <= j < i ==> props[j].0 != props[i].0
    ensures Lookup(props, props[i].0) == Some(props[i].1)
  {
    if i > 0 {
      assert props[1..][i - 1] == props[i];
      LookupFirst(props[1..], i - 1);
    }
  }

  /** The JSON object written for a retailer record (`RetailerOutput.cs`). */
  function SerializeRetailer<F, D>(r: RetailerOutput): (o: JsonObject<F, D>)
    ensures NamesOf(o.named) == RetailerKeys && o.extension == map[]
  {
    JsonObject([("name", JsonString(r.name)),
                ("source_url", JsonString(r.sourceUrl)),
                ("last_updated", StringOrNull(r.lastUpdated))],
               map[])
  }

  /** Reads a retailer record back from its JSON object; `None` if a required member is missing or not a string. */
  function ParseRetailer<F, D>(o: JsonObject<F, D>): Option<RetailerOutput> {
    var name: Option<JsonValue<F, D>> := Lookup(o.named, "name");
    var url: Option<JsonValue<F, D>> := Lookup(o.named, "source_url");
    var updated: Option<JsonValue<F, D>> := Lookup(o.named, "last_updated");
    if name.Some? && name.value.JsonString? && url.Some? && url.value.JsonString?
       && (updated.None? || updated.value.JsonNull? || updated.value.JsonString?)
    then
      Some(RetailerOutput(name.value.s, url.value.s,
                          if updated.Some? && updated.value.JsonString? then Some(updated.value.s) else None))
    else None
  }

  /** Each member of a written retailer line is found by its name with the field's value. */
  lemma RetailerMembers<F, D>(r: RetailerOutput)
    ensures Lookup(SerializeRetailer<F, D>(r).named, "name") == Some(JsonString(r.name))
    ensures Lookup(SerializeRetailer<F, D>(r).named, "source_url") == Some(JsonString(r.sourceUrl))
    ensures Lookup(SerializeRetailer<F, D>(r).named, "last_updated") == Some(StringOrNull<F, D>(r.lastUpdated))
  {
    var n := SerializeRetailer<F, D>(r).named;
    LookupFirst(n, 0);
    LookupFirst(n, 1);
    LookupFirst(n, 2);
  }

  /** A retailer record survives writing and reading back unchanged, absent `last_updated` included. */
  lemma RetailerRoundTrip<F, D>(r: RetailerOutput)
    ensures ParseRetailer<F, D>(SerializeRetailer(r)) == Some(r)
  {
    RetailerMembers<F, D>(r);
  }

  /** The JSON object written for a station record (`StationOutput.cs`); `prices` is not written. */
  function SerializeStation<F, D>(s: StationOutput<F, D>): (o: JsonObject<F, D>)
    ensures NamesOf(o.named) == StationKeys
    ensures o.extension == if s.extensionData.Some? then s.extensionData.value else map[]
  {
    JsonObject([("retailer_name", JsonString(s.retailerName)),
                ("site_id", StringOrNull(s.siteId)),
                ("brand", StringOrNull(s.brand)),
                ("address", StringOrNull(s.address)),
                ("postcode", StringOrNull(s.postcode)),
                ("latitude", FloatOrNull(s.latitude)),
                ("longitude", FloatOrNull(s.longitude))],
               if s.extensionData.Some? then s.extensionData.value else map[])
  }

  /**
   * What reading a nullable string member gives: `Some(None)` for `null` or a missing
   * member, `Some(Some(s))` for a string, `None` (a read error) for anything else.
   */
  function ReadString<F, D>(v: Option<JsonValue<F, D>>): Option<Option<string>> {
    if v.None? || v.value.JsonNull? then Some(None)
    else if v.value.JsonString? then Some(Some(v.value.s))
    else None
  }

  /** The same for a nullable float member. */
  function ReadFloat<F, D>(v: Option<JsonValue<F, D>>): Option<Option<F>> {
    if v.None? || v.value.JsonNull? then Some(None)
    else if v.value.JsonFloat? then Some(Some(v.value.f))
    else None
  }

  /**
   * Reads a station record back from its JSON object. The required `retailer_name` must
   * be a string. `Prices` is ignored, so it stays `null`. The extension data holds the
   * remaining members, and stays `null` when there are none.
   */
  function ParseStation<F, D>(o: JsonObject<F, D>): Option<StationOutput<F, D>> {
    var name: Option<JsonValue<F, D>> := Lookup(o.named, "retailer_name");
    var siteId := ReadString(Lookup(o.named, "site_id"));
    var brand := ReadString(Lookup(o.named, "brand"));
    var address := ReadString(Lookup(o.named, "address"));
    var postcode := ReadString(Lookup(o.named, "postcode"));
    var latitude := ReadFloat(Lookup(o.named, "latitude"));
    var longitude := ReadFloat(Lookup(o.named, "longitude"));
    if name.Some? && name.value.JsonString? && siteId.Some? && brand.Some? && address.Some? && postcode.Some?
       && latitude.Some? && longitude.Some?
    then
      Some(StationOutput(name.value.s, siteId.value, brand.value, address.value, postcode.value,
                         latitude.value, longitude.value, None,
                         if o.extension == map[] then None else Some(o.extension)))
    else None
  }

  /** The extension data a station line reads back with: none when it was absent or empty. */
  function ExtensionReadBack<D>(e: Option<map<string, D>>): Option<map<string, D>> {
    if e.Some? && e.value != map[] then e else None
  }

  /** The first members of a written station line are found by name with the fields' values. */
  lemma StationNameMembers<F, D>(s: StationOutput<F, D>)
    ensures Lookup(SerializeStation(s).named, "retailer_name") == Some(JsonString(s.retailerName))
    ensures Lookup(SerializeStation(s).named, "site_id") == Some(StringOrNull<F, D>(s.siteId))
    ensures Lookup(SerializeStation(s).named, "brand") == Some(StringOrNull<F, D>(s.brand))
  {
    var n := SerializeStation(s).named;
    LookupFirst(n, 0);
    LookupFirst(n, 1);
    LookupFirst(n, 2);
  }

  /** The address members of a written station line are found by name with the fields' values. */
  lemma StationAddressMembers<F, D>(s: StationOutput<F, D>)
    ensures Lookup(SerializeStation(s).named, "address") == Some(StringOrNull<F, D>(s.address))
    ensures Lookup(SerializeStation(s).named, "postcode") == Some(StringOrNull<F, D>(s.postcode))
  {
    var n := SerializeStation(s).named;
    LookupFirst(n, 3);
    LookupFirst(n, 4);
  }

  /** The coordinate members of a written station line are found by name with the fields' values. */
  lemma StationCoordinateMembers<F, D>(s: StationOutput<F, D>)
    ensures Lookup(SerializeStation(s).named, "latitude") == Some(FloatOrNull<F, D>(s.latitude))
    ensures Lookup(SerializeStation(s).named, "longitude") == Some(FloatOrNull<F, D>(s.longitude))
  {
    var n := SerializeStation(s).named;
    LookupFirst(n, 5);
    LookupFirst(n, 6);
  }

  /** A station line whose members hold the fields of `s` reads back as `s`, without prices. */
  lemma ParseStationMembers<F, D>(o: JsonObject<F, D>, s: StationOutput<F, D>)
    requires Lookup(o.named, "retailer_name") == Some(JsonString(s.retailerName))
    requires Lookup(o.named, "site_id") == Some(StringOrNull<F, D>(s.siteId))
    requires Lookup(o.named, "brand") == Some(StringOrNull<F, D>(s.brand))
    requires Lookup(o.named, "address") == Some(StringOrNull<F, D>(s.address))
    requires Lookup(o.named, "postcode") == Some(StringOrNull<F, D>(s.postcode))
    requires Lookup(o.named, "latitude") == Some(FloatOrNull<F, D>(s.latitude))
    requires Lookup(o.named, "longitude") == Some(FloatOrNull<F, D>(s.longitude))
    ensures var p := ParseStation(o);
            p.Some? && p.value.retailerName == s.retailerName && p.value.siteId == s.siteId && p.value.brand == s.brand
            && p.value.address == s.address && p.value.postcode == s.postcode
            && p.value.latitude == s.latitude && p.value.longitude == s.longitude
            && p.value.prices.None? && p.value.extensionData == (if o.extension == map[] then None else Some(o.extension))
  {
    ReadStringOrNull<F, D>(s.siteId);
    ReadStringOrNull<F, D>(s.brand);
    ReadStringOrNull<F, D>(s.address);
    ReadStringOrNull<F, D>(s.postcode);
    ReadFloatOrNull<F, D>(s.latitude);
    ReadFloatOrNull<F, D>(s.longitude);
  }

  /** A nullable string member reads back as the value it was written from. */
  lemma ReadStringOrNull<F, D>(v: Option<string>)
    ensures ReadString(Some(StringOrNull<F, D>(v))) == Some(v)
  {
  }

  /** A nullable float member reads back as the value it was written from. */
  lemma ReadFloatOrNull<F, D>(v: Option<F>)
    ensures ReadFloat(Some(FloatOrNull<F, D>(v))) == Some(v)
  {
  }

  /**
   * A station record survives writing and reading back. Every named member comes back
   * with its value, nulls included. The extension data comes back with the same entries.
   * `prices` is never written.
   */
  lemma StationRoundTrip<F, D>(s: StationOutput<F, D>)
    ensures ParseStation(SerializeStation(s)) == Some(s.(prices := None, extensionData := ExtensionReadBack(s.extensionData)))
  {
    StationNameMembers(s);
    StationAddressMembers(s);
    StationCoordinateMembers(s);
    ParseStationMembers(SerializeStation(s), s);
  }

  /** Changing `prices` never changes what is written for a station. */
  lemma PricesNotSerialized<F, D>(s: StationOutput<F, D>, p: Option<map<string, Option<D>>>)
    ensures SerializeStation(s.(prices := p)) == SerializeStation(s)
  {
  }

  /**
   * The members of a written station are the seven named ones plus exactly the
   * extension-data keys, each extension entry with its own value.
   */
  lemma StationKeysAreNamedPlusExtension<F, D>(s: StationOutput<F, D>)
    ensures Keys(SerializeStation(s)) == (set k | k in StationKeys) + (if s.extensionData.Some? then s.extensionData.value.Keys else {})
    ensures s.extensionData.Some? ==> forall k :: k in s.extensionData.value ==> SerializeStation(s).extension[k] == s.extensionData.value[k]
  {
    var o := SerializeStation(s);
    assert NamesOf(o.named) == StationKeys;
    assert (set i | 0 <= i < |o.named| :: o.named[i].0) == (set k | k in StationKeys) by {
      forall k | k in StationKeys ensures k in (set i | 0 <= i < |o.named| :: o.named[i].0) {
        var i :| 0 <= i < |StationKeys| && StationKeys[i] == k;
        assert o.named[i].0 == NamesOf(o.named)[i];
      }
    }
  }
}
