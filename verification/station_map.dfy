/**
 * `renderStations` of the front end: which stations are shown for the current
 * selection, where each marker goes, and the price badges of its popup. Leaflet itself
 * is not modelled: a marker is the value handed to it.
 */
module StationMap {
  import opened Wrappers
  import opened JsValues

  /**
   * Reference meaning of a chain `c0 || c1 || ... || last`: the first truthy candidate,
   * or `last` (whatever it is) when none is truthy.
   */
  function FirstTruthy(candidates: seq<JsValue>, last: JsValue): (r: JsValue)
    ensures r == last || r in candidates
    ensures r != last ==> Truthy(r)
    ensures (forall i :: 0 <= i < |candidates| ==> !Truthy(candidates[i])) ==> r == last
    ensures |candidates| > 0 && Truthy(candidates[0]) ==> r == candidates[0]
    ensures forall i :: 0 <= i < |candidates| && Truthy(candidates[i]) && (forall j :: 0 <= j < i ==> !Truthy(candidates[j])) ==>
                          r == candidates[i]
  {
    if candidates == [] then last
    else if Truthy(candidates[0]) then candidates[0]
    else FirstTruthy(candidates[1..], last)
  }

  lemma FirstTruthyCons(c: JsValue, cs: seq<JsValue>, last: JsValue)
    ensures FirstTruthy([c] + cs, last) == Or(c, FirstTruthy(cs, last))
  {
    assert ([c] + cs)[1..] == cs;
  }

  /** `s.retailer_name || s.retailer || s.group || ''`. */
  function StationRetailer(s: JsObject): (r: JsValue)
    ensures r == FirstTruthy([Get(s, "retailer_name"), Get(s, "retailer"), Get(s, "group")], Str(""))
  {
    Or(Or(Or(Get(s, "retailer_name"), Get(s, "retailer")), Get(s, "group")), Str(""))
  }

  /** `s.latitude || s.lat || (s.location && s.location[1])`. */
  function Latitude(s: JsObject): (r: JsValue)
    ensures r == FirstTruthy([Get(s, "latitude"), Get(s, "lat")], And(Get(s, "location"), Index(Get(s, "location"), 1)))
  {
    Or(Or(Get(s, "latitude"), Get(s, "lat")), And(Get(s, "location"), Index(Get(s, "location"), 1)))
  }

  /** `s.longitude || s.lng || s.lon || (s.location && s.location[0])`. */
  function Longitude(s: JsObject): (r: JsValue)
    ensures r == FirstTruthy([Get(s, "longitude"), Get(s, "lng"), Get(s, "lon")], And(Get(s, "location"), Index(Get(s, "location"), 0)))
  {
    Or(Or(Or(Get(s, "longitude"), Get(s, "lng")), Get(s, "lon")), And(Get(s, "location"), Index(Get(s, "location"), 0)))
  }

  /** `s.name || s.station_name || s.address || s.id || 'Station'`. */
  function StationName(s: JsObject): (r: JsValue)
    ensures r == FirstTruthy([Get(s, "name"), Get(s, "station_name"), Get(s, "address"), Get(s, "id")], Str("Station"))
  {
    FirstTruthyCons(Get(s, "id"), [], Str("Station"));
    FirstTruthyCons(Get(s, "address"), [Get(s, "id")], Str("Station"));
    FirstTruthyCons(Get(s, "station_name"), [Get(s, "address"), Get(s, "id")], Str("Station"));
    FirstTruthyCons(Get(s, "name"), [Get(s, "station_name"), Get(s, "address"), Get(s, "id")], Str("Station"));
    Or(Or(Or(Or(Get(s, "name"), Get(s, "station_name")), Get(s, "address")), Get(s, "id")), Str("Station"))
  }

  /** A `location` array is read as `[longitude, latitude]` when no named coordinate is truthy. */
  lemma LocationArrayIsLonLat(s: JsObject, lon: JsValue, lat: JsValue)
    requires !Truthy(Get(s, "latitude")) && !Truthy(Get(s, "lat"))
    requires !Truthy(Get(s, "longitude")) && !Truthy(Get(s, "lng")) && !Truthy(Get(s, "lon"))
    requires Get(s, "location") == Arr([lon, lat])
    ensures Latitude(s) == lat && Longitude(s) == lon
  {
  }

  /** A coordinate of zero is falsy, so it counts as missing: with nothing after it, the station gets no marker. */
  lemma ZeroLongitudeCountsAsMissing(s: JsObject)
    requires Get(s, "longitude") == Num(0.0)
    requires "lng" !in s && "lon" !in s && "location" !in s
    ensures IsNullish(Longitude(s))
  {
  }

  // ---------------------------------------------------------------------------
  // Selection filter

  /** A station's resolved retailer is strictly equal to the selected id. */
  predicate MatchesRetailer(s: JsObject, selected: string) {
    StationRetailer(s) == Str(selected)
  }

  /** `stations.filter(...)` for a selected retailer. */
  function KeepRetailer(stations: seq<JsObject>, selected: string): (r: seq<JsObject>)
    ensures |r| <= |stations|
    ensures forall s :: multiset(r)[s] == if MatchesRetailer(s, selected) then multiset(stations)[s] else 0
  {
    if stations == [] then []
    else
      var rest := KeepRetailer(stations[1..], selected);
      assert stations == [stations[0]] + stations[1..];
      if MatchesRetailer(stations[0], selected) then [stations[0]] + rest else rest
  }

  /** The stations `renderStations` keeps: all of them unless a (truthy) retailer id is selected. */
  function FilterStations(stations: seq<JsObject>, selection: Option<string>): (r: seq<JsObject>)
    ensures selection.None? || selection.value == "" ==> r == stations
    ensures selection.Some? && selection.value != "" ==>
              forall s :: multiset(r)[s] == if MatchesRetailer(s, selection.value) then multiset(stations)[s] else 0
  {
    if selection.Some? && selection.value != "" then KeepRetailer(stations, selection.value) else stations
  }

  // ---------------------------------------------------------------------------
  // Price badges and markers

  datatype BadgeStyle = Success | Dark

  /** The fuels that get a badge, with the station property each is read from. */
  datatype Fuel = E10 | E5 | B7 | SDV {
    function Key(): string {
      match this
      case E10 => "E10"
      case E5 => "E5"
      case B7 => "B7"
      case SDV => "SDV"
    }
  }

  /** One `<span class="badge ...">FUEL: price p</span>`. */
  datatype Badge = Badge(fuel: Fuel, price: JsValue, style: BadgeStyle)

  /** The order in which badges are shown. */
  const FuelOrder: seq<Fuel> := [E10, E5, B7, SDV]

  function StyleOf(fuel: Fuel): BadgeStyle {
    if fuel == E10 || fuel == E5 then Success else Dark
  }

  /** The price of `fuel` is given (`s[fuel] != null`). */
  predicate Priced(s: JsObject, fuel: Fuel) {
    !IsNullish(Get(s, fuel.Key()))
  }

  /** The fuels of `fuels` whose price is not `null`/`undefined`, in the order of `fuels`. */
  function PricedFuels(s: JsObject, fuels: seq<Fuel>): (r: seq<Fuel>)
    ensures |r| <= |fuels|
    ensures forall f :: f in r <==> f in fuels && Priced(s, f)
  {
    if fuels == [] then []
    else
      var rest := PricedFuels(s, fuels[1..]);
      assert forall f :: f in fuels <==> f == fuels[0] || f in fuels[1..];
      if Priced(s, fuels[0]) then [fuels[0]] + rest else rest
  }

  /** The badge shown for `fuel`. */
  function BadgeOf(s: JsObject, fuel: Fuel): Badge {
    Badge(fuel, Get(s, fuel.Key()), StyleOf(fuel))
  }

  /** One badge per fuel of `fuels`, in that order. */
  function BadgeList(s: JsObject, fuels: seq<Fuel>): (r: seq<Badge>)
    ensures |r| == |fuels|
    ensures forall i :: 0 <= i < |r| ==> r[i] == BadgeOf(s, fuels[i])
  {
    if fuels == [] then [] else [BadgeOf(s, fuels[0])] + BadgeList(s, fuels[1..])
  }

  lemma BadgeListAppend(s: JsObject, a: seq<Fuel>, b: seq<Fuel>)
    ensures BadgeList(s, a + b) == BadgeList(s, a) + BadgeList(s, b)
  {
    var l := BadgeList(s, a + b);
    forall i | 0 <= i < |l| ensures l[i] == (BadgeList(s, a) + BadgeList(s, b))[i] {
      assert (a + b)[i] == if i < |a| then a[i] else b[i - |a|];
    }
  }

  /** `[fuel]` if its price is given, else `[]`. */
  function IfPriced(s: JsObject, fuel: Fuel): seq<Fuel> {
    if Priced(s, fuel) then [fuel] else []
  }

  lemma PricedFuelsCons(s: JsObject, f: Fuel, fs: seq<Fuel>)
    ensures PricedFuels(s, [f] + fs) == IfPriced(s, f) + PricedFuels(s, fs)
  {
    assert ([f] + fs)[1..] == fs;
  }

  lemma PricedLastThree(s: JsObject)
    ensures PricedFuels(s, [E5, B7, SDV]) == IfPriced(s, E5) + (IfPriced(s, B7) + IfPriced(s, SDV))
  {
    PricedFuelsCons(s, SDV, []);
    PricedFuelsCons(s, B7, [SDV]);
    PricedFuelsCons(s, E5, [B7, SDV]);
    assert [SDV] == [SDV] + [];
    assert [B7, SDV] == [B7] + [SDV];
    assert [E5, B7, SDV] == [E5] + [B7, SDV];
  }

  /** The priced fuels of `FuelOrder` are each fuel, if priced, in the fixed order. */
  lemma PricedFuelOrder(s: JsObject)
    ensures PricedFuels(s, FuelOrder) == IfPriced(s, E10) + (IfPriced(s, E5) + (IfPriced(s, B7) + IfPriced(s, SDV)))
  {
    PricedLastThree(s);
    PricedFuelsCons(s, E10, [E5, B7, SDV]);
    assert FuelOrder == [E10] + [E5, B7, SDV];
  }

  /** The four optional badges, concatenated, are the badges of the priced fuels in `FuelOrder`. */
  lemma PriceBadgesFollowFuelOrder(s: JsObject)
    ensures BadgeList(s, IfPriced(s, E10)) + BadgeList(s, IfPriced(s, E5)) + BadgeList(s, IfPriced(s, B7)) + BadgeList(s, IfPriced(s, SDV))
         == BadgeList(s, PricedFuels(s, FuelOrder))
  {
    var e10, e5, b7, sdv := IfPriced(s, E10), IfPriced(s, E5), IfPriced(s, B7), IfPriced(s, SDV);
    PricedFuelOrder(s);
    BadgeListAppend(s, b7, sdv);
    BadgeListAppend(s, e5, b7 + sdv);
    BadgeListAppend(s, e10, e5 + (b7 + sdv));
    var l10, l5, l7, lsdv := BadgeList(s, e10), BadgeList(s, e5), BadgeList(s, b7), BadgeList(s, sdv);
    ConcatAssoc(l10, l5, l7 + lsdv);
    ConcatAssoc(l10 + l5, l7, lsdv);
  }

  /**
   * The badge string of the popup, built by four `if (s.X != null)` steps: one badge per
   * fuel of `FuelOrder` with a price, in that fixed order.
   */
  function PriceBadges(s: JsObject): (r: seq<Badge>)
    ensures r == BadgeList(s, PricedFuels(s, FuelOrder))
  {
    var e10 := if !IsNullish(Get(s, "E10")) then [Badge(E10, Get(s, "E10"), Success)] else [];
    var e5 := if !IsNullish(Get(s, "E5")) then [Badge(E5, Get(s, "E5"), Success)] else [];
    var b7 := if !IsNullish(Get(s, "B7")) then [Badge(B7, Get(s, "B7"), Dark)] else [];
    var sdv := if !IsNullish(Get(s, "SDV")) then [Badge(SDV, Get(s, "SDV"), Dark)] else [];
    assert e10 == BadgeList(s, IfPriced(s, E10)) by { BadgeIfPriced(s, E10); }
    assert e5 == BadgeList(s, IfPriced(s, E5)) by { BadgeIfPriced(s, E5); }
    assert b7 == BadgeList(s, IfPriced(s, B7)) by { BadgeIfPriced(s, B7); }
    assert sdv == BadgeList(s, IfPriced(s, SDV)) by { BadgeIfPriced(s, SDV); }
    PriceBadgesFollowFuelOrder(s);
    e10 + e5 + b7 + sdv
  }

  lemma BadgeIfPriced(s: JsObject, f: Fuel)
    ensures BadgeList(s, IfPriced(s, f)) == if !IsNullish(Get(s, f.Key())) then [Badge(f, Get(s, f.Key()), StyleOf(f))] else []
  {
  }

  /** The price part of a popup: the badges, or "No price data" when there are none. */
  datatype PriceSection = Badges(badges: seq<Badge>) | NoPriceData

  /** A popup shows the (escaped) station name, retailer and price section. */
  datatype Popup = Popup(name: JsValue, retailer: JsValue, prices: PriceSection)

  /** A marker at the resolved coordinates (as given to `parseFloat`) with its popup. */
  datatype Marker = Marker(lat: JsValue, lon: JsValue, popup: Popup)

  /** The marker of one kept station, if it has both coordinates. */
  function StationMarker(s: JsObject): (m: Option<Marker>)
    ensures m.Some? <==> !IsNullish(Latitude(s)) && !IsNullish(Longitude(s))
    ensures m.Some? ==> m.value.lat == Latitude(s) && m.value.lon == Longitude(s)
    ensures m.Some? ==> m.value.popup.name == StationName(s) && m.value.popup.retailer == StationRetailer(s)
    ensures m.Some? ==> (m.value.popup.prices == NoPriceData <==> forall f :: f in FuelOrder ==> !Priced(s, f))
    ensures m.Some? && m.value.popup.prices.Badges? ==> m.value.popup.prices.badges == PriceBadges(s)
  {
    var lat := Latitude(s);
    var lon := Longitude(s);
    if IsNullish(lat) || IsNullish(lon) then None
    else
      var badges := PriceBadges(s);
      assert badges == [] <==> PricedFuels(s, FuelOrder) == [];
      assert PricedFuels(s, FuelOrder) == [] <==> forall f :: f in FuelOrder ==> !Priced(s, f) by {
        if PricedFuels(s, FuelOrder) != [] {
          assert PricedFuels(s, FuelOrder)[0] in PricedFuels(s, FuelOrder);
        }
      }
      Some(Marker(lat, lon, Popup(StationName(s), StationRetailer(s), if badges != [] then Badges(badges) else NoPriceData)))
  }

  /** The markers of `stations.forEach(...)`, skipping stations without both coordinates. */
  function MarkersOf(stations: seq<JsObject>): (r: seq<Marker>)
    ensures |r| <= |stations|
    ensures forall m :: m in r ==> exists s :: s in stations && StationMarker(s) == Some(m)
    ensures forall s :: s in stations && StationMarker(s).Some? ==> StationMarker(s).value in r
  {
    if stations == [] then []
    else
      var rest := MarkersOf(stations[1..]);
      assert forall s :: s in stations <==> s == stations[0] || s in stations[1..];
      match StationMarker(stations[0])
      case None => rest
      case Some(m) => [m] + rest
  }

  /** What `renderStations(stations)` puts on the map for the current selection. */
  function RenderStations(stations: seq<JsObject>, selection: Option<string>): (r: seq<Marker>)
    ensures forall m :: m in r ==>
              exists s :: s in stations && StationMarker(s) == Some(m)
                          && (selection.Some? && selection.value != "" ==> MatchesRetailer(s, selection.value))
    ensures forall s :: s in stations && StationMarker(s).Some?
                        && (selection.Some? && selection.value != "" ==> MatchesRetailer(s, selection.value))
                        ==> StationMarker(s).value in r
  {
    var kept := FilterStations(stations, selection);
    assert forall s :: s in kept <==> multiset(kept)[s] > 0;
    assert forall s :: s in stations <==> multiset(stations)[s] > 0;
    MarkersOf(kept)
  }

  /** The marker list of one station: its marker, or nothing when it lacks a coordinate. */
  lemma MarkersOfOne(s: JsObject)
    ensures MarkersOf([s]) == if StationMarker(s).Some? then [StationMarker(s).value] else []
  {
    assert [s][1..] == [];
  }

  /** The markers of consecutive runs of stations are added in order, one run after the other. */
  lemma {:induction false} MarkersOfAppend(xs: seq<JsObject>, ys: seq<JsObject>)
    ensures MarkersOf(xs + ys) == MarkersOf(xs) + MarkersOf(ys)
  {
    if xs == [] {
      assert xs + ys == ys;
    } else {
      assert (xs + ys)[0] == xs[0] && (xs + ys)[1..] == xs[1..] + ys;
      MarkersOfAppend(xs[1..], ys);
    }
  }

  /** Concatenation is associative. */
  lemma ConcatAssoc<T>(a: seq<T>, b: seq<T>, c: seq<T>)
    ensures a + (b + c) == (a + b) + c
  {
  }

  /** The filter applied to a station followed by others. */
  lemma KeepRetailerCons(x: JsObject, rest: seq<JsObject>, selected: string)
    ensures KeepRetailer([x] + rest, selected) == (if MatchesRetailer(x, selected) then [x] else []) + KeepRetailer(rest, selected)
  {
    assert ([x] + rest)[0] == x && ([x] + rest)[1..] == rest;
  }

  /** The filter keeps consecutive runs of stations in order, one run after the other. */
  lemma {:induction false} KeepRetailerAppend(xs: seq<JsObject>, ys: seq<JsObject>, selected: string)
    ensures KeepRetailer(xs + ys, selected) == KeepRetailer(xs, selected) + KeepRetailer(ys, selected)
  {
    if xs == [] {
      assert xs + ys == ys;
    } else {
      var x, rest := xs[0], xs[1..];
      assert xs == [x] + rest && xs + ys == [x] + (rest + ys);
      KeepRetailerCons(x, rest + ys, selected);
      KeepRetailerCons(x, rest, selected);
      KeepRetailerAppend(rest, ys, selected);
      var head := if MatchesRetailer(x, selected) then [x] else [];
      ConcatAssoc(head, KeepRetailer(rest, selected), KeepRetailer(ys, selected));
    }
  }

  /** A station is drawn when it has both coordinates and, if a retailer is selected, matches it. */
  predicate Drawn(s: JsObject, selection: Option<string>) {
    StationMarker(s).Some? && (selection.Some? && selection.value != "" ==> MatchesRetailer(s, selection.value))
  }

  /** One station puts exactly its own marker on the map when it is drawn, and nothing otherwise. */
  lemma RenderStationsOne(s: JsObject, selection: Option<string>)
    ensures RenderStations([s], selection) == if Drawn(s, selection) then [StationMarker(s).value] else []
  {
    assert [s][1..] == [];
    MarkersOfOne(s);
  }

  /**
   * The markers of a station list are those of its parts, in order: with
   * `RenderStationsOne`, one marker per drawn station, in the stations' order.
   */
  lemma RenderStationsAppend(xs: seq<JsObject>, ys: seq<JsObject>, selection: Option<string>)
    ensures RenderStations(xs + ys, selection) == RenderStations(xs, selection) + RenderStations(ys, selection)
  {
    if selection.Some? && selection.value != "" {
      KeepRetailerAppend(xs, ys, selection.value);
      MarkersOfAppend(KeepRetailer(xs, selection.value), KeepRetailer(ys, selection.value));
    } else {
      MarkersOfAppend(xs, ys);
    }
  }

  /** The number of stations that are drawn. */
  function DrawnCount(stations: seq<JsObject>, selection: Option<string>): nat {
    if stations == [] then 0 else (if Drawn(stations[0], selection) then 1 else 0) + DrawnCount(stations[1..], selection)
  }

  /** The map holds one marker per drawn station, no more and no fewer. */
  lemma {:induction false} RenderStationsCount(stations: seq<JsObject>, selection: Option<string>)
    ensures |RenderStations(stations, selection)| == DrawnCount(stations, selection)
  {
    if stations != [] {
      assert stations == [stations[0]] + stations[1..];
      RenderStationsAppend([stations[0]], stations[1..], selection);
      RenderStationsOne(stations[0], selection);
      RenderStationsCount(stations[1..], selection);
    }
  }
}
