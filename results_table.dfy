/** The result list engine of the results table: filtering, the incrementally
    grown visible window, row selection, and the GeoJSON handed to the map. */
module ResultsTable {
  import opened Wrappers
  import opened Seqs
  import opened Text
  import opened Overlap
  import StatisticsCards

  // ---------------------------------------------------------------------
  // Filtering

  /** The two filter inputs; an empty string means "no filter". */
  datatype FilterOptions = FilterOptions(errorType: string, featureId: string)

  const NoFilters: FilterOptions := FilterOptions("", "")

  /** The single-pass reading of the filters: both predicates, each switched
      off by an empty filter string. */
  predicate Matches(f: FilterOptions, r: OverlapResult) {
    (f.errorType == "" || HasErrorType(f, r)) && (f.featureId == "" || HasIdSubstring(f, r))
  }

  /** `result.error_type === filters.error_type` */
  predicate HasErrorType(f: FilterOptions, r: OverlapResult) {
    r.errorType == f.errorType
  }

  /** `result.feature_id.toString().includes(filters.feature_id)` */
  predicate HasIdSubstring(f: FilterOptions, r: OverlapResult) {
    Includes(DecimalString(r.featureId), f.featureId)
  }

  function ByErrorType(f: FilterOptions): OverlapResult -> bool {
    r => HasErrorType(f, r)
  }

  function ByIdSubstring(f: FilterOptions): OverlapResult -> bool {
    r => HasIdSubstring(f, r)
  }

  function ByFilters(f: FilterOptions): OverlapResult -> bool {
    r => Matches(f, r)
  }

  /** The filter as the effect computes it: a copy of the results, narrowed by
      error type when that filter is set, then by the id substring when that
      one is set. */
  function ApplyFilters(results: seq<OverlapResult>, f: FilterOptions): (r: seq<OverlapResult>)
    ensures |r| <= |results|
    ensures forall i :: 0 <= i < |r| ==> r[i] in results && Matches(f, r[i])
  {
    var byType := if f.errorType != "" then Keep(results, ByErrorType(f)) else results;
    assert forall i :: 0 <= i < |byType| ==> byType[i] in results && (f.errorType == "" || HasErrorType(f, byType[i]));
    if f.featureId != "" then Keep(byType, ByIdSubstring(f)) else byType
  }

  /** The two passes amount to one pass with the conjunction of both filters. */
  lemma ApplyFiltersIsSinglePass(results: seq<OverlapResult>, f: FilterOptions)
    ensures ApplyFilters(results, f) == Keep(results, ByFilters(f))
  {
    if f.errorType != "" && f.featureId != "" {
      KeepKeep(results, ByErrorType(f), ByIdSubstring(f), ByFilters(f));
    } else if f.errorType != "" {
      KeepCongruent(results, ByErrorType(f), ByFilters(f));
    } else if f.featureId != "" {
      KeepCongruent(results, ByIdSubstring(f), ByFilters(f));
    } else {
      KeepAll(results, ByFilters(f));
    }
  }

  /** A row survives the filters iff it is one of the results, its error type
      equals the error-type filter (when set), and the id filter (when set)
      occurs at some position in the decimal form of its id. */
  lemma FilterMembership(results: seq<OverlapResult>, f: FilterOptions, r: OverlapResult)
    ensures r in ApplyFilters(results, f) <==>
      && r in results
      && (f.errorType == "" || r.errorType == f.errorType)
      && (f.featureId == "" || exists i :: OccursAt(DecimalString(r.featureId), f.featureId, i))
  {
    ApplyFiltersIsSinglePass(results, f);
    IncludesIff(DecimalString(r.featureId), f.featureId);
    var both := ByFilters(f);
    var kept := Keep(results, both);
    if r in kept {
      var i :| 0 <= i < |kept| && kept[i] == r;
      assert kept[i] in results && both(kept[i]);
    }
    if r in results && Matches(f, r) {
      var i :| 0 <= i < |results| && results[i] == r;
      assert both(results[i]);
    }
  }

  /** Filtering preserves the order of the rows it keeps. */
  lemma FilterKeepsOrder(results: seq<OverlapResult>, f: FilterOptions)
    ensures IsSubsequence(ApplyFilters(results, f), results)
  {
    ApplyFiltersIsSinglePass(results, f);
    KeepIsSubsequence(results, ByFilters(f));
  }

  /** With both filters empty every row is shown, in order. */
  lemma NoFiltersKeepAll(results: seq<OverlapResult>)
    ensures ApplyFilters(results, NoFilters) == results
  {
  }

  // ---------------------------------------------------------------------
  // The visible window

  const PageSize: nat := 10
  const ScrollThreshold: real := 50.0

  function Min(a: int, b: int): int {
    if a < b then a else b
  }

  /** The rows shown after `page` pages have been loaded. */
  function Window(filtered: seq<OverlapResult>, page: nat): (w: seq<OverlapResult>)
    ensures |w| <= |filtered| && w == filtered[..|w|]
  {
    filtered[..Min(page * PageSize, |filtered|)]
  }

  /** Loading one more page, while rows remain, appends exactly the next slice
      of at most `PageSize` rows. */
  lemma {:induction false} WindowGrowth(filtered: seq<OverlapResult>, page: nat)
    requires page * PageSize < |filtered|
    ensures Window(filtered, page + 1) ==
            Window(filtered, page) + filtered[page * PageSize..Min(page * PageSize + PageSize, |filtered|)]
  {
    var start := page * PageSize;
    var stop := Min(start + PageSize, |filtered|);
    assert filtered[..stop] == filtered[..start] + filtered[start..stop];
  }

  /** More pages never shrink the window: earlier windows are prefixes of later ones. */
  lemma WindowMonotone(filtered: seq<OverlapResult>, p: nat, q: nat)
    requires p <= q
    ensures Window(filtered, p) <= Window(filtered, q)
  {
  }

  /** The window falls short of the filtered list exactly when another page
      would add rows. */
  lemma WindowHasMore(filtered: seq<OverlapResult>, page: nat)
    ensures |Window(filtered, page)| < |filtered| <==> page * PageSize < |filtered|
  {
  }

  /** The scroll handler's trigger: the list is scrolled to within the
      threshold of its bottom. */
  predicate ScrollNearBottom(scrollTop: real, scrollHeight: real, clientHeight: real) {
    scrollHeight - (scrollTop + clientHeight) < ScrollThreshold
  }

  // ---------------------------------------------------------------------
  // Selection

  /** What `!!selectedItems[id]` reads: an absent id counts as not selected. */
  function IsSelected(m: map<int, bool>, id: int): bool {
    id in m && m[id]
  }

  /** The selection after one row's checkbox is clicked. */
  function Toggle(m: map<int, bool>, id: int): (r: map<int, bool>)
    ensures IsSelected(r, id) == !IsSelected(m, id)
    ensures r.Keys == m.Keys + {id}
    ensures forall k :: k in m && k != id ==> r[k] == m[k]
  {
    m[id := !IsSelected(m, id)]
  }

  /** Clicking a checkbox twice restores the selection state of every row. */
  lemma ToggleTwice(m: map<int, bool>, id: int, k: int)
    ensures IsSelected(Toggle(Toggle(m, id), id), k) == IsSelected(m, k)
  {
  }

  function Ids(rows: seq<OverlapResult>): set<int> {
    set r | r in rows :: r.featureId
  }

  /** The `forEach` loop of the select-all handler: a fresh map holding every
      id of `window`, each mapped to `checked`, and no other id. */
  method BuildSelection(window: seq<OverlapResult>, checked: bool) returns (m: map<int, bool>)
    ensures m.Keys == Ids(window)
    ensures forall k :: k in m ==> m[k] == checked
  {
    m := map[];
    var i := 0;
    while i < |window|
      invariant 0 <= i <= |window|
      invariant m.Keys == Ids(window[..i])
      invariant forall k :: k in m ==> m[k] == checked
    {
      assert window[..i + 1] == window[..i] + [window[i]];
      m := m[window[i].featureId := checked];
      i := i + 1;
    }
    assert window[..i] == window;
  }

  /** The "View Selected on Map" button is enabled iff some value of the
      selection map is true. */
  function AnySelected(m: map<int, bool>): (r: bool)
    ensures r <==> exists id :: IsSelected(m, id)
  {
    TrueValuesCounted(m);
    |set id | id in m && m[id]| != 0
  }

  lemma TrueValuesCounted(m: map<int, bool>)
    ensures |set id | id in m && m[id]| != 0 <==> exists id :: IsSelected(m, id)
  {
    var chosen := set id | id in m && m[id];
    if exists id :: IsSelected(m, id) {
      var id :| IsSelected(m, id);
      assert id in chosen;
    } else {
      forall id | id in m
        ensures id !in chosen
      {
        assert !IsSelected(m, id);
      }
      assert chosen == {};
    }
  }

  // ---------------------------------------------------------------------
  // GeoJSON for the map

  /** Which rows "View ... on Map" shows. */
  datatype ViewMode = SelectedRows | FilteredRows | AllRows

  /** Why building the map's GeoJSON throws: `JSON.parse` fails, or a
      `FeatureCollection` has no first feature to take a geometry from. */
  datatype ProjectionError = MalformedGeometry | EmptyCollection

  /** The rows chosen by the view mode. */
  function RowsToShow(mode: ViewMode, results: seq<OverlapResult>, filtered: seq<OverlapResult>,
                      selected: map<int, bool>): (rows: seq<OverlapResult>)
    ensures mode.AllRows? ==> rows == results
    ensures mode.FilteredRows? ==> rows == filtered
    ensures mode.SelectedRows? ==>
              && |rows| <= |results|
              && forall i :: 0 <= i < |rows| ==> rows[i] in results && IsSelected(selected, rows[i].featureId)
  {
    match mode
    case SelectedRows => Keep(results, (r: OverlapResult) => IsSelected(selected, r.featureId))
    case FilteredRows => filtered
    case AllRows => results
  }

  /** In "selected" mode the map shows, in result order, exactly the rows whose
      id is selected, including selected rows the filters currently hide. */
  lemma SelectedRowsShown(results: seq<OverlapResult>, filtered: seq<OverlapResult>, selected: map<int, bool>)
    ensures var rows := RowsToShow(SelectedRows, results, filtered, selected);
      && IsSubsequence(rows, results)
      && (forall i :: 0 <= i < |rows| ==> IsSelected(selected, rows[i].featureId))
      && (forall i :: 0 <= i < |results| && IsSelected(selected, results[i].featureId) ==> results[i] in rows)
  {
    KeepIsSubsequence(results, (r: OverlapResult) => IsSelected(selected, r.featureId));
  }

  /** The geometry a row contributes to the map: the feature's geometry, the
      first feature's geometry of a collection, or the parsed value itself. */
  function ProjectGeometry(p: ParsedGeometry): (r: Result<Option<Geometry>, ProjectionError>)
    ensures r == Err(MalformedGeometry) <==> p.ParseError?
    ensures r == Err(EmptyCollection) <==> p.ParsedCollection? && p.collection.features == []
    ensures r.Ok? && p.ParsedCollection? ==> r.value == p.collection.features[0].geometry
    ensures r.Ok? && p.RawGeometry? ==> r.value == Some(p.geometry)
  {
    match p
    case ParsedFeature(f) => Ok(f.geometry)
    case ParsedCollection(c) => if |c.features| == 0 then Err(EmptyCollection) else Ok(c.features[0].geometry)
    case RawGeometry(g) => Ok(Some(g))
    case ParseError => Err(MalformedGeometry)
  }

  /** One row as a map feature: the row's three fields as properties and its
      normalised geometry; nothing else of the parsed value is kept. */
  function ProjectRow(row: OverlapResult): (r: Result<Feature, ProjectionError>)
    ensures r.Err? <==> row.geometry.ParseError? || (row.geometry.ParsedCollection? && row.geometry.collection.features == [])
    ensures r.Ok? ==> r.value.properties == Some(PropertiesOf(row)) && r.value.members == map[]
    ensures r.Ok? && row.geometry.ParsedFeature? ==> r.value.geometry == row.geometry.feature.geometry
    ensures r.Ok? && row.geometry.ParsedCollection? ==> r.value.geometry == row.geometry.collection.features[0].geometry
    ensures r.Ok? && row.geometry.RawGeometry? ==> r.value.geometry == Some(row.geometry.geometry)
  {
    match ProjectGeometry(row.geometry)
    case Ok(g) => Ok(Feature(g, Some(PropertiesOf(row)), map[]))
    case Err(e) => Err(e)
  }

  /** `featuresToShow.map(...)`: one feature per row, in row order, or the
      error of the first row that cannot be projected. */
  function ProjectRows(rows: seq<OverlapResult>): (r: Result<seq<Feature>, ProjectionError>)
    ensures r.Ok? <==> forall i :: 0 <= i < |rows| ==> ProjectRow(rows[i]).Ok?
    ensures r.Ok? ==> |r.value| == |rows| && forall i :: 0 <= i < |rows| ==> r.value[i] == ProjectRow(rows[i]).value
    ensures r.Err? ==> exists i :: 0 <= i < |rows| && ProjectRow(rows[i]) == Err(r.error) &&
                                   forall j :: 0 <= j < i ==> ProjectRow(rows[j]).Ok?
  {
    if rows == [] then
      Ok([])
    else
      match ProjectRow(rows[0])
      case Err(e) => Err(e)
      case Ok(f) =>
        match ProjectRows(rows[1..])
        case Err(e) =>
          assert forall j :: 1 <= j < |rows| ==> rows[1..][j - 1] == rows[j];
          Err(e)
        case Ok(fs) => Ok([f] + fs)
  }

  /** The single-row "view on map" normalisation: a collection is shown as it
      is; a feature keeps its members but gets the row's properties; a bare
      geometry is wrapped in a one-feature collection; unparsable text gives
      nothing. */
  function SingleRowCollection(row: OverlapResult): (r: Option<FeatureCollection>)
    ensures r.None? <==> row.geometry.ParseError?
    ensures row.geometry.ParsedCollection? ==> r == Some(row.geometry.collection)
    ensures r.Some? && !row.geometry.ParsedCollection? ==>
      && |r.value.features| == 1
      && r.value.features[0].properties == Some(PropertiesOf(row))
      && r.value.members == map[]
    ensures row.geometry.ParsedFeature? ==>
      r.value.features[0] == row.geometry.feature.(properties := Some(PropertiesOf(row)))
    ensures row.geometry.RawGeometry? ==>
      r.value.features[0] == Feature(Some(row.geometry.geometry), Some(PropertiesOf(row)), map[])
  {
    match row.geometry
    case ParsedCollection(c) => Some(c)
    case ParsedFeature(f) => Some(FeatureCollection([f.(properties := Some(PropertiesOf(row)))], map[]))
    case RawGeometry(g) => Some(FeatureCollection([Feature(Some(g), Some(PropertiesOf(row)), map[])], map[]))
    case ParseError => None
  }

  /** The single-row and the multi-row paths agree on a row's geometry
      whenever the multi-row path succeeds, and on its properties unless the
      row holds a whole collection (which the single-row path leaves as is). */
  lemma SingleRowAgreesWithProjection(row: OverlapResult)
    requires ProjectRow(row).Ok?
    ensures SingleRowCollection(row).Some?
    ensures SingleRowCollection(row).value.features != []
    ensures SingleRowCollection(row).value.features[0].geometry == ProjectRow(row).value.geometry
    ensures !row.geometry.ParsedCollection? ==>
      SingleRowCollection(row).value.features[0].properties == ProjectRow(row).value.properties
  {
  }

  // ---------------------------------------------------------------------
  // The component's state

  class ResultsTable {
    var results: seq<OverlapResult>
    var filters: FilterOptions
    var filteredResults: seq<OverlapResult>
    var displayedResults: seq<OverlapResult>
    var page: nat
    var selectedItems: map<int, bool>
    var selectedGeometry: Option<FeatureCollection>
    var showMap: bool
    var mapViewType: ViewMode

    /** The filtered list is the filters applied to the results, and the
        visible window is its first `page` pages. */
    ghost predicate Valid()
      reads this
    {
      && filteredResults == ApplyFilters(results, filters)
      && page >= 1
      && displayedResults == Window(filteredResults, page)
    }

    /** Mounting the table with `results`, followed by the first run of the
        filter effect. */
    constructor (results: seq<OverlapResult>)
      ensures Valid()
      ensures this.results == results && filters == NoFilters
      ensures filteredResults == results && page == 1
      ensures displayedResults == results[..Min(PageSize, |results|)]
      ensures selectedItems == map[] && selectedGeometry == None
      ensures !showMap && mapViewType == AllRows
    {
      this.results := results;
      filters := NoFilters;
      filteredResults := results;
      page := 1;
      displayedResults := results[..Min(PageSize, |results|)];
      selectedItems := map[];
      selectedGeometry := None;
      showMap := false;
      mapViewType := AllRows;
      NoFiltersKeepAll(results);
    }

    /** The statistics cards, always over the full results. */
    function Statistics(): StatisticsCards.Statistics
      reads this`results
    {
      StatisticsCards.Compute(results)
    }

    /** The filter effect: recompute the filtered list and reset the window to
        its first page. The selection is left alone. */
    method Refilter()
      modifies this`filteredResults, this`page, this`displayedResults
      ensures Valid()
      ensures filteredResults == ApplyFilters(results, filters)
      ensures page == 1 && displayedResults == filteredResults[..Min(PageSize, |filteredResults|)]
    {
      var filtered := ApplyFilters(results, filters);
      filteredResults := filtered;
      page := 1;
      displayedResults := filtered[..Min(PageSize, |filtered|)];
    }

    /** Choosing an error type in the filter drop-down. */
    method SetErrorTypeFilter(value: string)
      modifies this`filters, this`filteredResults, this`page, this`displayedResults
      ensures Valid()
      ensures filters == old(filters).(errorType := value)
      ensures page == 1 && displayedResults == filteredResults[..Min(PageSize, |filteredResults|)]
      ensures Statistics() == old(Statistics())
      ensures selectedItems == old(selectedItems)
    {
      filters := filters.(errorType := value);
      Refilter();
    }

    /** Typing in the feature-id search box. */
    method SetFeatureIdFilter(value: string)
      modifies this`filters, this`filteredResults, this`page, this`displayedResults
      ensures Valid()
      ensures filters == old(filters).(featureId := value)
      ensures page == 1 && displayedResults == filteredResults[..Min(PageSize, |filteredResults|)]
      ensures Statistics() == old(Statistics())
      ensures selectedItems == old(selectedItems)
    {
      filters := filters.(featureId := value);
      Refilter();
    }

    /** The `results` prop changing while the table stays mounted: the filter
        effect runs again with the current filters. */
    method SetResults(rs: seq<OverlapResult>)
      modifies this`results, this`filteredResults, this`page, this`displayedResults
      ensures Valid()
      ensures results == rs
      ensures page == 1 && displayedResults == filteredResults[..Min(PageSize, |filteredResults|)]
      ensures Statistics() == StatisticsCards.Compute(rs)
    {
      results := rs;
      Refilter();
    }

    /** `loadMore`: append the next page of filtered rows if any remain. */
    method LoadMore()
      requires Valid()
      modifies this`displayedResults, this`page
      ensures Valid()
      ensures old(page) * PageSize < |filteredResults| ==>
        && page == old(page) + 1
        && displayedResults == old(displayedResults) +
             filteredResults[old(page) * PageSize..Min(old(page) * PageSize + PageSize, |filteredResults|)]
      ensures old(page) * PageSize >= |filteredResults| ==>
        page == old(page) && displayedResults == old(displayedResults)
      ensures old(displayedResults) <= displayedResults
    {
      var nextPage := page + 1;
      var startIndex := (nextPage - 1) * PageSize;
      var endIndex := startIndex + PageSize;
      if startIndex < |filteredResults| {
        var newItems := filteredResults[startIndex..Min(endIndex, |filteredResults|)];
        WindowGrowth(filteredResults, page);
        displayedResults := displayedResults + newItems;
        page := nextPage;
      }
    }

    /** The scroll listener: load more when scrolled near the bottom. */
    method OnScroll(scrollTop: real, scrollHeight: real, clientHeight: real)
      requires Valid()
      modifies this`displayedResults, this`page
      ensures Valid()
      ensures ScrollNearBottom(scrollTop, scrollHeight, clientHeight) && old(page) * PageSize < |filteredResults| ==>
        && page == old(page) + 1
        && displayedResults == old(displayedResults) +
             filteredResults[old(page) * PageSize..Min(old(page) * PageSize + PageSize, |filteredResults|)]
      ensures !ScrollNearBottom(scrollTop, scrollHeight, clientHeight) || old(page) * PageSize >= |filteredResults| ==>
        page == old(page) && displayedResults == old(displayedResults)
      ensures old(displayedResults) <= displayedResults
    {
      if ScrollNearBottom(scrollTop, scrollHeight, clientHeight) {
        LoadMore();
      }
    }

    /** The loading spinner under the table shows exactly when another page
        would still add rows. */
    function HasMore(): (r: bool)
      reads this
      requires Valid()
      ensures r <==> page * PageSize < |filteredResults|
    {
      WindowHasMore(filteredResults, page);
      |displayedResults| < |filteredResults|
    }

    /** `handleSelect`: flip one row's checkbox. */
    method Select(id: int)
      modifies this`selectedItems
      ensures selectedItems == Toggle(old(selectedItems), id)
    {
      selectedItems := selectedItems[id := !IsSelected(selectedItems, id)];
    }

    /** `handleSelectAll`: replace the whole selection with the visible ids
        mapped to `checked`; ids outside the window lose their selection. */
    method SelectAll(checked: bool)
      modifies this`selectedItems
      ensures selectedItems.Keys == Ids(displayedResults)
      ensures forall id :: id in selectedItems ==> selectedItems[id] == checked
      ensures forall id :: id !in Ids(displayedResults) ==> !IsSelected(selectedItems, id)
    {
      var newSelected := BuildSelection(displayedResults, checked);
      selectedItems := newSelected;
    }

    /** One of the three "View ... on Map" buttons. */
    method ShowMapView(mode: ViewMode)
      modifies this`mapViewType, this`showMap
      ensures mapViewType == mode && showMap
    {
      mapViewType := mode;
      showMap := true;
    }

    method CloseMapView()
      modifies this`showMap
      ensures !showMap
    {
      showMap := false;
    }

    /** `getMapGeoJSON`: the collection the map shows for the current mode. */
    function MapGeoJSON(): (r: Result<FeatureCollection, ProjectionError>)
      reads this
      ensures var rows := RowsToShow(mapViewType, results, filteredResults, selectedItems);
        r.Ok? <==> forall i :: 0 <= i < |rows| ==> ProjectRow(rows[i]).Ok?
      ensures var rows := RowsToShow(mapViewType, results, filteredResults, selectedItems);
        r.Ok? ==>
          && r.value.members == map[]
          && |r.value.features| == |rows|
          && forall i :: 0 <= i < |rows| ==> r.value.features[i] == ProjectRow(rows[i]).value
    {
      match ProjectRows(RowsToShow(mapViewType, results, filteredResults, selectedItems))
      case Ok(fs) => Ok(FeatureCollection(fs, map[]))
      case Err(e) => Err(e)
    }

    /** A row's "view on map" button; unparsable geometry is only logged and
        leaves every field as it was. */
    method ViewRowOnMap(row: OverlapResult)
      modifies this`selectedGeometry
      ensures row.geometry.ParseError? ==> selectedGeometry == old(selectedGeometry)
      ensures !row.geometry.ParseError? ==> selectedGeometry == SingleRowCollection(row)
    {
      match SingleRowCollection(row)
      case Some(c) => selectedGeometry := Some(c);
      case None =>
    }

    /** Closing the single-row map. */
    method CloseRowMap()
      modifies this`selectedGeometry
      ensures selectedGeometry == None
    {
      selectedGeometry := None;
    }
  }
}
