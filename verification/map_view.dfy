/**
 * The page state of the front end: the selected retailer, the retailer cards with their
 * `active` marks, the last loaded stations and the markers on the map, and the handlers
 * that change them (rendering the cards, clicking a card, loading the current view).
 */
module MapPage {
  import opened Wrappers
  import opened JsValues
  import opened HtmlEscape
  import opened StationMap
  import opened Pagination

  /** `r.name || r.title || r.retailer_name || 'Unknown'`: the name shown on a retailer card. */
  function RetailerName(r: JsObject): (name: JsValue)
    ensures name == FirstTruthy([Get(r, "name"), Get(r, "title"), Get(r, "retailer_name")], Str("Unknown"))
    ensures Truthy(name)
  {
    FirstTruthyCons(Get(r, "retailer_name"), [], Str("Unknown"));
    FirstTruthyCons(Get(r, "title"), [Get(r, "retailer_name")], Str("Unknown"));
    FirstTruthyCons(Get(r, "name"), [Get(r, "title"), Get(r, "retailer_name")], Str("Unknown"));
    Or(Or(Or(Get(r, "name"), Get(r, "title")), Get(r, "retailer_name")), Str("Unknown"))
  }

  /** `selectedRetailerId || ''`. */
  function SelectedOrEmpty(selected: Option<string>): string {
    if selected.Some? then selected.value else ""
  }

  /** `getAttribute('data-retailer-id') || null`: the All card's empty attribute reads as no id. */
  function CardId(attr: string): Option<string> {
    if attr == "" then None else Some(attr)
  }

  /**
   * The selection after a click on a card whose id attribute is `attr`: the All card clears
   * it, the selected card toggles it off, any other card selects that retailer.
   */
  function Toggle(selected: Option<string>, attr: string): (next: Option<string>)
    ensures next != Some("")
    ensures attr == "" ==> next == None
    ensures attr != "" && selected != Some("") ==> (next == None <==> selected == Some(attr))
    ensures next.Some? ==> next == Some(attr)
  {
    if CardId(attr) == Some(SelectedOrEmpty(selected)) then None else CardId(attr)
  }

  /** Clicking the same named card twice leaves it selected exactly when it was selected before. */
  lemma ClickTwice(selected: Option<string>, attr: string)
    requires attr != "" && selected != Some("")
    ensures Toggle(Toggle(selected, attr), attr) == if selected == Some(attr) then Some(attr) else None
  {
  }

  /**
   * The marks `renderRetailerCards` gives: the All card (first) is active when no retailer is
   * selected, a named card when its name equals the selection.
   */
  function RenderMarks(cardIds: seq<string>, selected: Option<string>): (marks: seq<bool>)
    ensures |marks| == |cardIds|
    ensures |cardIds| > 0 ==> (marks[0] <==> SelectedOrEmpty(selected) == "")
    ensures forall j :: 0 < j < |cardIds| ==> (marks[j] <==> selected == Some(cardIds[j]))
  {
    seq(|cardIds|, j requires 0 <= j < |cardIds| => if j == 0 then SelectedOrEmpty(selected) == "" else selected == Some(cardIds[j]))
  }

  /**
   * The mark the click handler gives a card, as written: its id (an empty attribute read as
   * `null`) strictly equal to `selectedRetailerId || ''`.
   */
  predicate ClickMarkAsWritten(attr: string, selected: Option<string>) {
    CardId(attr) == Some(SelectedOrEmpty(selected))
  }

  /** The marks after a click, as written. */
  function ClickMarksAsWritten(cardIds: seq<string>, selected: Option<string>): (marks: seq<bool>)
    ensures |marks| == |cardIds|
    ensures forall j :: 0 <= j < |cardIds| ==>
              (marks[j] <==> cardIds[j] != "" && selected.Some? && selected.value == cardIds[j])
  {
    seq(|cardIds|, j requires 0 <= j < |cardIds| => ClickMarkAsWritten(cardIds[j], selected))
  }

  /**
   * As written, a click never marks the All card, even when it leaves nothing selected,
   * while rendering the cards marks it exactly then.
   */
  lemma AllCardNeverMarkedAsWritten(cardIds: seq<string>, selected: Option<string>)
    requires |cardIds| > 0 && cardIds[0] == ""
    ensures !ClickMarksAsWritten(cardIds, selected)[0]
    ensures RenderMarks(cardIds, None)[0]
  {
  }

  /** The evidently intended mark: the card's attribute equal to `selectedRetailerId || ''`. */
  predicate ClickMark(attr: string, selected: Option<string>) {
    attr == SelectedOrEmpty(selected)
  }

  /** The marks after a click, with the intended comparison. */
  function ClickMarks(cardIds: seq<string>, selected: Option<string>): (marks: seq<bool>)
    ensures |marks| == |cardIds|
    ensures forall j :: 0 <= j < |cardIds| ==> (marks[j] <==> ClickMark(cardIds[j], selected))
  {
    seq(|cardIds|, j requires 0 <= j < |cardIds| => ClickMark(cardIds[j], selected))
  }

  /**
   * With the intended comparison a click marks the cards just as rendering them afresh
   * would: the All card when nothing is selected, otherwise the cards of the selected name.
   */
  lemma ClickMarksAgreeWithRender(cardIds: seq<string>, selected: Option<string>)
    requires |cardIds| > 0 && cardIds[0] == ""
    requires forall j :: 0 < j < |cardIds| ==> cardIds[j] != ""
    requires selected != Some("")
    ensures ClickMarks(cardIds, selected) == RenderMarks(cardIds, selected)
  {
    var c := ClickMarks(cardIds, selected);
    var r := RenderMarks(cardIds, selected);
    forall j | 0 <= j < |cardIds|
      ensures c[j] == r[j]
    {
      if j == 0 {
        assert c[0] <==> SelectedOrEmpty(selected) == "";
      } else {
        assert c[j] <==> cardIds[j] == SelectedOrEmpty(selected);
      }
    }
  }

  /** The written and the intended marks differ only on the All card. */
  lemma AsWrittenDiffersOnlyOnAllCard(cardIds: seq<string>, selected: Option<string>)
    requires selected != Some("")
    ensures forall j :: 0 <= j < |cardIds| && cardIds[j] != "" ==>
              ClickMarksAsWritten(cardIds, selected)[j] == ClickMarks(cardIds, selected)[j]
  {
  }

  /** With distinct card ids, at most one card is active after a click. */
  lemma AtMostOneMarked(cardIds: seq<string>, selected: Option<string>, j: nat, k: nat)
    requires forall a, b :: 0 <= a < b < |cardIds| ==> cardIds[a] != cardIds[b]
    requires j < |cardIds| && k < |cardIds|
    requires ClickMarksAsWritten(cardIds, selected)[j] && ClickMarksAsWritten(cardIds, selected)[k]
    ensures j == k
  {
    assert cardIds[j] == selected.value == cardIds[k];
  }

  /**
   * The cards `renderRetailerCards` writes: the All card with an empty id, then one card
   * per name whose id attribute, escaped and read back by the browser, is the name.
   */
  method BuildCards(names: seq<string>, selected: Option<string>) returns (ids: seq<string>, marks: seq<bool>)
    ensures ids == [""] + names
    ensures marks == RenderMarks(ids, selected)
  {
    ids := [""];
    marks := [!(selected.Some? && selected.value != "")];
    var k := 0;
    while k < |names|
      invariant k <= |names|
      invariant ids == [""] + names[..k]
      invariant marks == RenderMarks(ids, selected)
    {
      // the attribute holds the escaped name; the browser reads it back unescaped
      var attr := Unescape(EscapeHtml(names[k]));
      EscapeHtmlRoundTrip(names[k]);
      ids := ids + [attr];
      marks := marks + [selected == Some(names[k])];
      assert names[..k + 1] == names[..k] + [names[k]];
      k := k + 1;
    }
    assert names[..k] == names;
  }

  /**
   * The two passes of the click handler over the cards: remove every `active` class, then
   * add it to each card that matches the selection.
   */
  method UpdateMarks(cardIds: seq<string>, selected: Option<string>, current: seq<bool>) returns (marks: seq<bool>)
    requires |current| == |cardIds|
    ensures marks == ClickMarksAsWritten(cardIds, selected)
  {
    marks := current;
    var j := 0;
    while j < |marks|
      invariant j <= |marks| == |cardIds|
      invariant forall k :: 0 <= k < j ==> !marks[k]
    {
      marks := marks[j := false];
      j := j + 1;
    }
    j := 0;
    while j < |marks|
      invariant j <= |marks| == |cardIds|
      invariant forall k :: 0 <= k < j ==> (marks[k] <==> ClickMarkAsWritten(cardIds[k], selected))
      invariant forall k :: j <= k < |marks| ==> !marks[k]
    {
      if ClickMarkAsWritten(cardIds[j], selected) {
        marks := marks[j := true];
      }
      j := j + 1;
    }
  }

  /** The page's state; the DOM and the Leaflet layer are represented by what they show. */
  class MapView {
    var selectedRetailerId: Option<string>
    /** The `data-retailer-id` attribute of each card, the All card first. */
    var cardIds: seq<string>
    /** Whether each card carries the `active` class. */
    var active: seq<bool>
    var lastStations: seq<JsObject>
    /** The markers in the markers layer. */
    var markers: seq<Marker>

    /** A card per mark; a selection is never the empty id; the map shows the last stations for the selection. */
    predicate Valid()
      reads this
    {
      |cardIds| == |active|
      && selectedRetailerId != Some("")
      && markers == RenderStations(lastStations, selectedRetailerId)
    }

    /** The state before anything is loaded. */
    constructor ()
      ensures Valid()
      ensures selectedRetailerId == None && cardIds == [] && active == []
      ensures lastStations == [] && markers == []
    {
      selectedRetailerId := None;
      cardIds := [];
      active := [];
      lastStations := [];
      markers := RenderStations([], None);
    }

    /**
     * `renderRetailerCards` for the resolved names: the All card, then one card per name
     * whose id attribute reads back as the name, marked for the current selection.
     */
    method RenderRetailerCards(names: seq<string>)
      requires Valid()
      modifies this
      ensures Valid()
      ensures cardIds == [""] + names
      ensures active == RenderMarks(cardIds, selectedRetailerId)
      ensures selectedRetailerId == old(selectedRetailerId)
      ensures lastStations == old(lastStations) && markers == old(markers)
    {
      var ids, marks := BuildCards(names, selectedRetailerId);
      cardIds := ids;
      active := marks;
    }

    /**
     * A click on card `i`: toggle the selection, clear every mark and mark the matching
     * cards, then redraw the markers of the last stations.
     */
    method Click(i: nat)
      requires Valid() && i < |cardIds|
      modifies this
      ensures Valid()
      ensures selectedRetailerId == Toggle(old(selectedRetailerId), old(cardIds)[i])
      ensures cardIds == old(cardIds) && lastStations == old(lastStations)
      ensures active == ClickMarksAsWritten(cardIds, selectedRetailerId)
    {
      var id := CardId(cardIds[i]);
      if id == Some(SelectedOrEmpty(selectedRetailerId)) {
        selectedRetailerId := None;
      } else {
        selectedRetailerId := id;
      }
      var marks := UpdateMarks(cardIds, selectedRetailerId, active);
      active := marks;
      markers := RenderStations(lastStations, selectedRetailerId);
    }

    /**
     * `loadStationsForCurrentView` with the API's answers as `pages`: a completed load
     * replaces the last stations and redraws the markers; a failed one changes nothing.
     */
    method LoadStationsForCurrentView<L>(bounds: Bounds<L>, pages: seq<PageResponse>) returns (result: LoadResult<L>)
      requires Valid()
      modifies this
      ensures Valid()
      ensures result == Paginate(BoundsToBboxArray(bounds), pages)
      ensures lastStations == if result.Loaded? then result.stations else old(lastStations)
      ensures selectedRetailerId == old(selectedRetailerId)
      ensures cardIds == old(cardIds) && active == old(active)
    {
      result := FetchAllPages(bounds, pages);
      if result.Loaded? {
        lastStations := result.stations;
        markers := RenderStations(lastStations, selectedRetailerId);
      }
    }
  }
}
