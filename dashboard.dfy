/** The dashboard component's state and the handlers and effects that
    replace it. Each React setter call becomes an assignment to a field; an
    effect becomes a method the caller runs after the change it depends on. */
module DashboardPage {
  import opened Sequences
  import opened EcmaScript
  import opened Listings
  import opened Markers

  /** The mapping service's map, reduced to what the marker effect changes:
      its zoom and the points of the last bounds it was fitted to. */
  class MapWidget {
    var zoom: real
    var fittedTo: seq<Position>

    /** A freshly created map at its initial zoom, not yet fitted to anything. */
    constructor(zoom: real)
      ensures this.zoom == zoom && fittedTo == []
    {
      this.zoom := zoom;
      fittedTo := [];
    }

    /** Fit the view to the bounds of the given points. The zoom that fits
        the bounds is chosen by the mapping service and is given here. */
    method FitBounds(points: seq<Position>, fittedZoom: real)
      modifies this
      ensures fittedTo == points && zoom == fittedZoom
    {
      fittedTo := points;
      zoom := fittedZoom;
    }

    /** The one-shot idle listener: pull the zoom back to the ceiling when the
        fit went past it. */
    method ClampOnIdle()
      modifies this
      ensures zoom == ClampZoom(old(zoom)) && fittedTo == old(fittedTo)
    {
      if zoom > MaxZoom {
        zoom := MaxZoom;
      }
    }
  }

  /** A marker on the map: the options it was created with and whether it
      is attached to the map. */
  class Marker {
    const spec: MarkerSpec
    var onMap: bool

    /** A marker is created already attached to the map. */
    constructor(spec: MarkerSpec)
      ensures this.spec == spec && onMap
    {
      this.spec := spec;
      onMap := true;
    }
  }

  /** Detach every marker of the previous generation from the map. */
  method DetachAll(ms: seq<Marker>)
    modifies ms
    ensures forall m :: m in ms ==> !m.onMap
  {
    var i := 0;
    while i < |ms|
      invariant 0 <= i <= |ms|
      invariant forall j :: 0 <= j < i ==> !ms[j].onMap
    {
      ms[i].onMap := false;
      i := i + 1;
    }
  }

  /** The new generation of markers: one new attached marker per
      descriptor, in order. */
  method CreateMarkers(specs: seq<MarkerSpec>) returns (created: seq<Marker>)
    ensures |created| == |specs|
    ensures forall i :: 0 <= i < |specs| ==> fresh(created[i]) && created[i].onMap && created[i].spec == specs[i]
  {
    created := [];
    while |created| < |specs|
      invariant |created| <= |specs|
      invariant forall j :: 0 <= j < |created| ==>
        fresh(created[j]) && created[j].onMap && created[j].spec == specs[j]
    {
      var m := new Marker(specs[|created|]);
      created := created + [m];
    }
  }

  /** One stage of `applyFilters`: when its field is set, narrow the list
      by the stage's callback; otherwise leave it alone. When the list is the
      filter of the master list `s` by the stages so far (`kept`), the result
      is its filter by those stages and this one (`next`). */
  method Narrow(filtered: seq<Property>, active: bool, keep: Property -> bool,
                ghost s: seq<Property>, ghost kept: Property -> bool, ghost next: Property -> bool)
    returns (narrowed: seq<Property>)
    requires filtered == Filter(s, kept)
    requires forall p :: next(p) == (kept(p) && (active ==> keep(p)))
    ensures narrowed == Filter(s, next)
  {
    narrowed := filtered;
    if active {
      narrowed := Filter(filtered, keep);
    }
    FilterStage(s, kept, active, keep, next);
  }

  /** The body of `applyFilters` up to `setFilteredProperties`: a copy of the
      master list, narrowed by one `filter` per stage whose field is set, in
      the page's order. The result is the one-pass reference `Selected`. */
  method RunPipeline(s: seq<Property>, f: Filters, query: string) returns (filtered: seq<Property>)
    ensures filtered == Selected(s, f, query)
  {
    filtered := s;
    ghost var kept: Property -> bool := (p: Property) => true;
    FilterKeepsAll(s, kept);
    assert filtered == Filter(s, kept);

    var byCategory := (p: Property) => p.category == f.propertyType;
    ghost var k1 := (p: Property) => PassesCategory(p, f);
    filtered := Narrow(filtered, f.propertyType != "all", byCategory, s, kept, k1);

    var byMinPrice := (p: Property) => AtLeast(p.price, ParseInt(f.minPrice));
    ghost var k2 := (p: Property) => PassesCategory(p, f) && PassesMinPrice(p, f);
    filtered := Narrow(filtered, f.minPrice != "", byMinPrice, s, k1, k2);

    var byMaxPrice := (p: Property) => AtMost(p.price, ParseInt(f.maxPrice));
    ghost var k3 := (p: Property) => PassesCategory(p, f) && PassesMinPrice(p, f) && PassesMaxPrice(p, f);
    filtered := Narrow(filtered, f.maxPrice != "", byMaxPrice, s, k2, k3);

    var byMinArea := (p: Property) => AtLeast(p.area, ParseInt(f.minArea));
    ghost var k4 := (p: Property) => PassesCategory(p, f) && PassesMinPrice(p, f) && PassesMaxPrice(p, f) && PassesMinArea(p, f);
    filtered := Narrow(filtered, f.minArea != "", byMinArea, s, k3, k4);

    var byMaxArea := (p: Property) => AtMost(p.area, ParseInt(f.maxArea));
    ghost var k5 := (p: Property) => PassesCategory(p, f) && PassesMinPrice(p, f) && PassesMaxPrice(p, f) && PassesMinArea(p, f) && PassesMaxArea(p, f);
    filtered := Narrow(filtered, f.maxArea != "", byMaxArea, s, k4, k5);

    var byMinBedrooms := (p: Property) => AtLeast(p.bedrooms, ParseInt(f.minBedrooms));
    ghost var k6 := (p: Property) => PassesCategory(p, f) && PassesMinPrice(p, f) && PassesMaxPrice(p, f) && PassesMinArea(p, f) && PassesMaxArea(p, f) && PassesMinBedrooms(p, f);
    filtered := Narrow(filtered, f.minBedrooms != "", byMinBedrooms, s, k5, k6);

    var byMinBathrooms := (p: Property) => AtLeast(p.bathrooms, ParseInt(f.minBathrooms));
    ghost var k7 := (p: Property) => PassesCategory(p, f) && PassesMinPrice(p, f) && PassesMaxPrice(p, f) && PassesMinArea(p, f) && PassesMaxArea(p, f) && PassesMinBedrooms(p, f) && PassesMinBathrooms(p, f);
    filtered := Narrow(filtered, f.minBathrooms != "", byMinBathrooms, s, k6, k7);

    var byQuery := (p: Property) => MentionsQuery(p, query);
    ghost var k8 := (p: Property) => PassesCategory(p, f) && PassesMinPrice(p, f) && PassesMaxPrice(p, f) && PassesMinArea(p, f) && PassesMaxArea(p, f) && PassesMinBedrooms(p, f) && PassesMinBathrooms(p, f) && PassesSearch(p, query);
    filtered := Narrow(filtered, query != "", byQuery, s, k7, k8);

    FilterAgree(s, k8, (p: Property) => Matches(p, f, query));
  }

  class Dashboard {
    var properties: seq<Property>
    var filteredProperties: seq<Property>
    var filters: Filters
    var searchQuery: string
    var activeFiltersCount: nat
    var mapView: MapWidget?
    var markers: seq<Marker>

    /** The criteria of the last apply or reset: editing the panel or the
        search box does not refilter until the next apply. */
    ghost var appliedFilters: Filters
    ghost var appliedQuery: string

    /** The filtered list is always the pipeline's result on the current
        master list for the criteria last applied. */
    ghost predicate Valid()
      reads this
    {
      filteredProperties == Selected(properties, appliedFilters, appliedQuery)
    }

    /** The component's first render with its initial listings (the page
        passes `SeedListings()`): all of them shown, default filters, no
        query, no map yet. */
    constructor(listings: seq<Property>)
      ensures Valid()
      ensures properties == listings && filteredProperties == listings
      ensures filters == DefaultFilters && searchQuery == "" && activeFiltersCount == 0
      ensures mapView == null && markers == []
    {
      properties := listings;
      filteredProperties := listings;
      filters := DefaultFilters;
      searchQuery := "";
      activeFiltersCount := 0;
      mapView := null;
      markers := [];
      appliedFilters := DefaultFilters;
      appliedQuery := "";
      SelectedDefaults(listings);
    }

    /** Store the map once the mapping service has created it. */
    method InitMap(m: MapWidget)
      requires Valid()
      modifies this
      ensures Valid() && mapView == m
      ensures properties == old(properties) && filteredProperties == old(filteredProperties)
      ensures filters == old(filters) && searchQuery == old(searchQuery)
      ensures activeFiltersCount == old(activeFiltersCount) && markers == old(markers)
      ensures appliedFilters == old(appliedFilters) && appliedQuery == old(appliedQuery)
    {
      mapView := m;
    }

    /** An edit in the filter panel, which replaces the draft criteria and
        nothing else (no re-filtering until the criteria are applied). */
    method EditFilters(f: Filters)
      requires Valid()
      modifies this
      ensures Valid() && filters == f
      ensures properties == old(properties) && filteredProperties == old(filteredProperties)
      ensures searchQuery == old(searchQuery) && activeFiltersCount == old(activeFiltersCount)
      ensures mapView == old(mapView) && markers == old(markers)
      ensures appliedFilters == old(appliedFilters) && appliedQuery == old(appliedQuery)
    {
      filters := f;
    }

    /** Typing in, or clearing, the search box: the draft search text changes
        and nothing else. */
    method SetSearchQuery(query: string)
      requires Valid()
      modifies this
      ensures Valid() && searchQuery == query
      ensures properties == old(properties) && filteredProperties == old(filteredProperties)
      ensures filters == old(filters) && activeFiltersCount == old(activeFiltersCount)
      ensures mapView == old(mapView) && markers == old(markers)
      ensures appliedFilters == old(appliedFilters) && appliedQuery == old(appliedQuery)
    {
      searchQuery := query;
    }

    /** The effect that runs whenever `filters` changes: the badge shows how
        many fields are not at their default. */
    method ComputeActiveCount()
      requires Valid()
      modifies this
      ensures Valid() && activeFiltersCount == |NonDefaultFields(filters)|
      ensures activeFiltersCount <= 7 && (activeFiltersCount == 0 <==> filters == DefaultFilters)
      ensures properties == old(properties) && filteredProperties == old(filteredProperties)
      ensures filters == old(filters) && searchQuery == old(searchQuery)
      ensures mapView == old(mapView) && markers == old(markers)
      ensures appliedFilters == old(appliedFilters) && appliedQuery == old(appliedQuery)
    {
      var count := CountActive(filters);
      ActiveCountBounds(filters);
      activeFiltersCount := count;
    }

    /** `applyFilters`: run the pipeline on the current criteria and store
        its result as the filtered list. */
    method ApplyFilters()
      modifies this
      ensures Valid()
      ensures filteredProperties == Selected(properties, filters, searchQuery)
      ensures appliedFilters == filters && appliedQuery == searchQuery
      ensures properties == old(properties) && filters == old(filters) && searchQuery == old(searchQuery)
      ensures activeFiltersCount == old(activeFiltersCount) && mapView == old(mapView) && markers == old(markers)
    {
      var filtered := RunPipeline(properties, filters, searchQuery);
      filteredProperties := filtered;
      appliedFilters, appliedQuery := filters, searchQuery;
    }

    /** `resetFilters`: default filters, no query, every listing shown. The
        badge goes back to 0 once the counting effect runs. */
    method ResetFilters()
      modifies this
      ensures Valid()
      ensures filters == DefaultFilters && searchQuery == "" && filteredProperties == properties
      ensures |NonDefaultFields(filters)| == 0
      ensures properties == old(properties) && activeFiltersCount == old(activeFiltersCount)
      ensures mapView == old(mapView) && markers == old(markers)
    {
      SelectedDefaults(properties);
      DefaultsInactive();
      filters := DefaultFilters;
      searchQuery := "";
      filteredProperties := properties;
      appliedFilters, appliedQuery := DefaultFilters, "";
    }

    /** Toggle a favourite: flip the flag of the listings with this id in
        both lists. The filtered list is not recomputed, and it need not be:
        it is still the pipeline's result for the criteria last applied. */
    method ToggleFavorite(id: int)
      requires Valid()
      modifies this
      ensures Valid()
      ensures properties == ToggleIn(old(properties), id)
      ensures filteredProperties == ToggleIn(old(filteredProperties), id)
      ensures Ids(filteredProperties) == Ids(old(filteredProperties))
      ensures filters == old(filters) && searchQuery == old(searchQuery)
      ensures activeFiltersCount == old(activeFiltersCount) && mapView == old(mapView) && markers == old(markers)
      ensures appliedFilters == old(appliedFilters) && appliedQuery == old(appliedQuery)
    {
      SelectedToggle(properties, appliedFilters, appliedQuery, id);
      ToggleKeepsIds(filteredProperties, id);
      properties := ToggleIn(properties, id);
      filteredProperties := ToggleIn(filteredProperties, id);
    }

    /** The marker effect, run whenever the map or the filtered list changes.
        Without a map it does nothing. Otherwise it detaches every old
        marker, creates one attached marker per filtered listing, and, when
        there is at least one, fits the map to their positions and clamps
        the zoom the fit produced (`fittedZoom`, chosen by the mapping
        service) to at most 15. */
    method SyncMarkers(fittedZoom: real)
      requires Valid()
      modifies this, mapView, markers
      ensures Valid()
      ensures properties == old(properties) && filteredProperties == old(filteredProperties)
      ensures filters == old(filters) && searchQuery == old(searchQuery)
      ensures activeFiltersCount == old(activeFiltersCount) && mapView == old(mapView)
      ensures appliedFilters == old(appliedFilters) && appliedQuery == old(appliedQuery)
      ensures mapView == null ==> markers == old(markers) && forall m :: m in markers ==> m.onMap == old(m.onMap)
      ensures mapView != null ==> forall m :: m in old(markers) ==> !m.onMap
      ensures mapView != null ==> |markers| == |filteredProperties|
      ensures mapView != null ==> forall i :: 0 <= i < |markers| ==>
        fresh(markers[i]) && markers[i].onMap && markers[i].spec == MarkerSpecs(filteredProperties)[i]
      ensures mapView != null && filteredProperties != [] ==>
        mapView.fittedTo == Positions(filteredProperties) && mapView.zoom == ClampZoom(fittedZoom)
      ensures mapView != null && filteredProperties == [] ==>
        mapView.fittedTo == old(mapView.fittedTo) && mapView.zoom == old(mapView.zoom)
    {
      if mapView == null {
        return;
      }

      DetachAll(markers);
      var created := CreateMarkers(MarkerSpecs(filteredProperties));
      markers := created;

      if |created| > 0 {
        assert filteredProperties != [];
        mapView.FitBounds(Positions(filteredProperties), fittedZoom);
        mapView.ClampOnIdle();
      }
    }
  }
}
