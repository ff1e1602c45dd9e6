/**
 * The client state of components/doctor-listing.tsx: the filter options, the
 * current page and which descriptions are expanded, the handlers that update
 * them, the active-filter badge, the collapsed description and the query
 * string sent to `GET /api/doctors`.
 *
 * React state is modelled as a value; each handler is the pure updater it
 * passes to the state setter.
 */
module DoctorListing {
  import opened Js
  import ListingQuery

  datatype FilterOptions = FilterOptions(
    specialization: seq<string>,
    priceRange: string,
    region: string,
    sortBy: string,
    search: string)

  /** Lines 61-67 and 184-190. */
  const NoFilters: FilterOptions := FilterOptions([], "", "", "relevance", "")

  /** The listing's state: the filter options, `currentPage` and `expandedIds`. */
  datatype Listing = Listing(filters: FilterOptions, currentPage: int, expanded: map<string, bool>)

  /** Line 59, 61-67 and 272: page 1, no filters, nothing expanded. */
  const Initial: Listing := Listing(NoFilters, 1, map[])

  // ---------------------------------------------------------------- specialization list

  /** `list.filter(s => s !== x)` */
  function Remove(list: seq<string>, x: string): (r: seq<string>)
    ensures x !in r
    ensures forall y :: y != x ==> multiset(r)[y] == multiset(list)[y]
  {
    if list == [] then []
    else
      assert list == [list[0]] + list[1..];
      (if list[0] == x then [] else [list[0]]) + Remove(list[1..], x)
  }

  /** Lines 139-141: drop every occurrence of a selected value, or append an unselected one. */
  function Toggle(list: seq<string>, x: string): (r: seq<string>)
    ensures x in list ==> r == Remove(list, x) && x !in r
    ensures x !in list ==> r == list + [x]
  {
    if x in list then Remove(list, x) else list + [x]
  }

  /** Removing distributes over concatenation, so the other entries keep their order. */
  lemma {:induction false} RemoveAppend(a: seq<string>, b: seq<string>, x: string)
    ensures Remove(a + b, x) == Remove(a, x) + Remove(b, x)
  {
    if a != [] {
      assert (a + b)[1..] == a[1..] + b;
      RemoveAppend(a[1..], b, x);
    } else {
      assert a + b == b;
    }
  }

  /** Removing a value that is not there changes nothing. */
  lemma {:induction false} RemoveAbsent(list: seq<string>, x: string)
    requires x !in list
    ensures Remove(list, x) == list
  {
    if list != [] {
      RemoveAbsent(list[1..], x);
      assert list == [list[0]] + list[1..];
    }
  }

  /** Toggling an unselected value on and off again restores the list. */
  lemma ToggleTwiceRestores(list: seq<string>, x: string)
    requires x !in list
    ensures Toggle(Toggle(list, x), x) == list
  {
    RemoveAppend(list, [x], x);
    RemoveAbsent(list, x);
    assert Remove([x], x) == [] by {
      assert [x][1..] == [];
    }
  }

  // ---------------------------------------------------------------- handlers

  /** Lines 137-149. */
  function SpecializationChange(v: Listing, specialization: string): (r: Listing)
    ensures r.currentPage == 1 && r.expanded == v.expanded
    ensures r.filters == v.filters.(specialization := Toggle(v.filters.specialization, specialization))
  {
    Listing(v.filters.(specialization := Toggle(v.filters.specialization, specialization)), 1, v.expanded)
  }

  /** Lines 151-157. */
  function PriceRangeChange(v: Listing, priceRange: string): (r: Listing)
    ensures r.currentPage == 1 && r.expanded == v.expanded && r.filters == v.filters.(priceRange := priceRange)
  {
    Listing(v.filters.(priceRange := priceRange), 1, v.expanded)
  }

  /** Lines 159-165. */
  function RegionChange(v: Listing, region: string): (r: Listing)
    ensures r.currentPage == 1 && r.expanded == v.expanded && r.filters == v.filters.(region := region)
  {
    Listing(v.filters.(region := region), 1, v.expanded)
  }

  /** Lines 167-173. */
  function SortChange(v: Listing, sortBy: string): (r: Listing)
    ensures r.currentPage == 1 && r.expanded == v.expanded && r.filters == v.filters.(sortBy := sortBy)
  {
    Listing(v.filters.(sortBy := sortBy), 1, v.expanded)
  }

  /** Lines 175-181. */
  function SearchChange(v: Listing, search: string): (r: Listing)
    ensures r.currentPage == 1 && r.expanded == v.expanded && r.filters == v.filters.(search := search)
  {
    Listing(v.filters.(search := search), 1, v.expanded)
  }

  /** Lines 183-192. */
  function ClearAllFilters(v: Listing): (r: Listing)
    ensures r.currentPage == 1 && r.expanded == v.expanded && r.filters == NoFilters
  {
    Listing(NoFilters, 1, v.expanded)
  }

  /** Lines 194-199: the page stays where it is. */
  function RemoveSpecialization(v: Listing, specialization: string): (r: Listing)
    ensures r.currentPage == v.currentPage && r.expanded == v.expanded
    ensures specialization !in r.filters.specialization
    ensures r.filters == v.filters.(specialization := Remove(v.filters.specialization, specialization))
  {
    Listing(v.filters.(specialization := Remove(v.filters.specialization, specialization)), v.currentPage, v.expanded)
  }

  /** Lines 201-206. */
  function RemovePriceRange(v: Listing): (r: Listing)
    ensures r.currentPage == v.currentPage && r.expanded == v.expanded && r.filters == v.filters.(priceRange := "")
  {
    Listing(v.filters.(priceRange := ""), v.currentPage, v.expanded)
  }

  /** Lines 208-213. */
  function RemoveRegion(v: Listing): (r: Listing)
    ensures r.currentPage == v.currentPage && r.expanded == v.expanded && r.filters == v.filters.(region := "")
  {
    Listing(v.filters.(region := ""), v.currentPage, v.expanded)
  }

  /** Line 243: clicking the selected bucket clears it, clicking another selects that one. */
  function PriceBucketClick(v: Listing, range: string): (r: Listing)
    ensures v.filters.priceRange == range ==> r.filters.priceRange == ""
    ensures v.filters.priceRange != range ==> r.filters.priceRange == range
    ensures r.currentPage == 1
    ensures r.filters == v.filters.(priceRange := r.filters.priceRange) && r.expanded == v.expanded
  {
    PriceRangeChange(v, if v.filters.priceRange == range then "" else range)
  }

  /** Lines 260-262: the region is stored lowercased and cleared by a second click. */
  function RegionClick(v: Listing, region: string): (r: Listing)
    ensures v.filters.region == Lower(region) ==> r.filters.region == ""
    ensures v.filters.region != Lower(region) ==> r.filters.region == Lower(region)
    ensures r.currentPage == 1
    ensures r.filters == v.filters.(region := r.filters.region) && r.expanded == v.expanded
  {
    RegionChange(v, if v.filters.region == Lower(region) then "" else Lower(region))
  }

  /** Clicking a bucket twice from any state leaves no bucket selected or the same one. */
  lemma PriceBucketClickTwice(v: Listing, range: string)
    ensures PriceBucketClick(PriceBucketClick(v, range), range).filters.priceRange
      == if v.filters.priceRange == range then range else ""
  {
  }

  // ---------------------------------------------------------------- active filters

  datatype FilterKind = SpecializationFilter | PriceFilter | RegionFilter | SortFilter

  /** The filter kinds that count toward the badge, in the order line 130-133 test them. */
  function ActiveFilters(f: FilterOptions): (kinds: seq<FilterKind>)
    ensures |kinds| <= 4
    ensures SpecializationFilter in kinds <==> |f.specialization| > 0
    ensures PriceFilter in kinds <==> f.priceRange != ""
    ensures RegionFilter in kinds <==> f.region != ""
    ensures SortFilter in kinds <==> f.sortBy != "relevance"
    ensures forall i, j :: 0 <= i < j < |kinds| ==> kinds[i] != kinds[j]
  {
    (if |f.specialization| > 0 then [SpecializationFilter] else [])
    + (if f.priceRange != "" then [PriceFilter] else [])
    + (if f.region != "" then [RegionFilter] else [])
    + (if f.sortBy != "relevance" then [SortFilter] else [])
  }

  /** Lines 128-135: the counter behind `activeFiltersCount`. */
  method CountActiveFilters(f: FilterOptions) returns (count: nat)
    ensures count == |ActiveFilters(f)| && count <= 4
  {
    count := 0;
    if |f.specialization| > 0 {
      count := count + 1;
    }
    if f.priceRange != "" {
      count := count + 1;
    }
    if f.region != "" {
      count := count + 1;
    }
    if f.sortBy != "relevance" {
      count := count + 1;
    }
  }

  /** The search box never counts, and clearing everything brings the badge to 0. */
  lemma ActiveFiltersIgnoreSearch(f: FilterOptions, search: string, v: Listing)
    ensures ActiveFilters(f.(search := search)) == ActiveFilters(f)
    ensures ActiveFilters(ClearAllFilters(v).filters) == []
  {
  }

  // ---------------------------------------------------------------- descriptions

  /** Line 416: an id never toggled reads as collapsed. */
  predicate IsExpanded(expanded: map<string, bool>, id: string) {
    id in expanded && expanded[id]
  }

  /** Lines 275-277: flip one entry of `expandedIds`. */
  function ToggleDescription(expanded: map<string, bool>, id: string): (r: map<string, bool>)
    ensures IsExpanded(r, id) == !IsExpanded(expanded, id)
    ensures r.Keys == expanded.Keys + {id}
    ensures forall k :: k in expanded && k != id ==> r[k] == expanded[k]
  {
    expanded[id := !IsExpanded(expanded, id)]
  }

  lemma ToggleDescriptionTwice(expanded: map<string, bool>, id: string, other: string)
    ensures IsExpanded(ToggleDescription(ToggleDescription(expanded, id), id), other) == IsExpanded(expanded, other)
  {
  }

  /** Lines 452-454: the first 150 characters, with "..." when some were cut. */
  function Collapsed(description: string): (r: string)
    ensures |r| <= 153
    ensures |description| <= 150 ==> r == description
    ensures |description| > 150 ==> r == description[..150] + "..."
  {
    Slice(description, Num(0), Num(150)) + (if |description| > 150 then "..." else "")
  }

  /** Line 452-454: what the card shows. */
  function Shown(expanded: map<string, bool>, id: string, description: string): (r: string)
    ensures IsExpanded(expanded, id) ==> r == description
    ensures !IsExpanded(expanded, id) ==> r == Collapsed(description)
  {
    if IsExpanded(expanded, id) then description else Collapsed(description)
  }

  // ---------------------------------------------------------------- paging

  /** Lines 488-491. */
  function Previous(v: Listing): (r: Listing)
    ensures r.filters == v.filters && r.expanded == v.expanded
    ensures r.currentPage == if v.currentPage > 1 then v.currentPage - 1 else v.currentPage
  {
    if v.currentPage > 1 then v.(currentPage := v.currentPage - 1) else v
  }

  /** Lines 514-517. */
  function Next(v: Listing, totalPages: int): (r: Listing)
    ensures r.filters == v.filters && r.expanded == v.expanded
    ensures r.currentPage == if v.currentPage < totalPages then v.currentPage + 1 else v.currentPage
  {
    if v.currentPage < totalPages then v.(currentPage := v.currentPage + 1) else v
  }

  /** Lines 496-509: the link for index `i` goes to page `i + 1`. */
  function GoToPage(v: Listing, i: nat): (r: Listing)
    ensures r.currentPage == i + 1 && r.filters == v.filters && r.expanded == v.expanded
  {
    v.(currentPage := i + 1)
  }

  /** A page within `[1, totalPages]` stays there whichever paging control is used. */
  lemma PagingStaysInRange(v: Listing, totalPages: int, i: nat)
    requires 1 <= v.currentPage <= totalPages
    requires i < totalPages
    ensures 1 <= Previous(v).currentPage <= totalPages
    ensures 1 <= Next(v, totalPages).currentPage <= totalPages
    ensures 1 <= GoToPage(v, i).currentPage <= totalPages
  {
  }

  // ---------------------------------------------------------------- query string

  function Optional(name: string, value: string): ListingQuery.Params {
    if value != "" then [(name, value)] else []
  }

  function SpecializationParams(values: seq<string>): (r: ListingQuery.Params)
    ensures |r| == |values|
    ensures forall i :: 0 <= i < |values| ==> r[i] == ("specialization", values[i])
  {
    seq(|values|, i requires 0 <= i < |values| => ("specialization", values[i]))
  }

  /** Lines 86-110: the pairs appended, in order. */
  function QueryParams(f: FilterOptions, page: nat): ListingQuery.Params {
    [("page", NatToString(page)), ("limit", "10")]
    + Optional("search", f.search)
    + SpecializationParams(f.specialization)
    + Optional("priceRange", f.priceRange)
    + Optional("region", f.region)
    + Optional("sortBy", f.sortBy)
  }

  /** Lines 86-110: append to a fresh `URLSearchParams`, one specialization per selected value. */
  method BuildQuery(f: FilterOptions, page: nat) returns (params: ListingQuery.Params)
    ensures params == QueryParams(f, page)
  {
    params := [("page", NatToString(page)), ("limit", "10")];
    if f.search != "" {
      params := params + [("search", f.search)];
    }
    ghost var head := params;
    var i := 0;
    while i < |f.specialization|
      invariant 0 <= i <= |f.specialization|
      invariant params == head + SpecializationParams(f.specialization[..i])
    {
      assert SpecializationParams(f.specialization[..i + 1])
        == SpecializationParams(f.specialization[..i]) + [("specialization", f.specialization[i])];
      params := params + [("specialization", f.specialization[i])];
      i := i + 1;
    }
    assert f.specialization[..i] == f.specialization;
    if f.priceRange != "" {
      params := params + [("priceRange", f.priceRange)];
    }
    if f.region != "" {
      params := params + [("region", f.region)];
    }
    if f.sortBy != "" {
      params := params + [("sortBy", f.sortBy)];
    }
  }

  lemma {:induction false} GetParamAppend(a: ListingQuery.Params, b: ListingQuery.Params, name: string)
    ensures ListingQuery.GetParam(a + b, name)
      == if ListingQuery.GetParam(a, name).Some? then ListingQuery.GetParam(a, name) else ListingQuery.GetParam(b, name)
  {
    if a != [] {
      assert (a + b)[1..] == a[1..] + b;
      GetParamAppend(a[1..], b, name);
    } else {
      assert a + b == b;
    }
  }

  lemma {:induction false} GetAllParamsAppend(a: ListingQuery.Params, b: ListingQuery.Params, name: string)
    ensures ListingQuery.GetAllParams(a + b, name) == ListingQuery.GetAllParams(a, name) + ListingQuery.GetAllParams(b, name)
  {
    if a != [] {
      assert (a + b)[1..] == a[1..] + b;
      GetAllParamsAppend(a[1..], b, name);
    } else {
      assert a + b == b;
    }
  }

  lemma {:induction false} SpecializationParamsRead(values: seq<string>)
    ensures ListingQuery.GetAllParams(SpecializationParams(values), "specialization") == values
  {
    if values != [] {
      SpecializationParamsRead(values[1..]);
      assert SpecializationParams(values)[1..] == SpecializationParams(values[1..]);
    }
  }

  /** The pairs after `page` and `limit`. */
  function FilterParams(f: FilterOptions): ListingQuery.Params {
    Optional("search", f.search)
    + (SpecializationParams(f.specialization)
    + (Optional("priceRange", f.priceRange) + (Optional("region", f.region) + Optional("sortBy", f.sortBy))))
  }

  lemma QueryParamsShape(f: FilterOptions, page: nat)
    ensures QueryParams(f, page) == [("page", NatToString(page)), ("limit", "10")] + FilterParams(f)
  {
  }

  /** An optional pair answers only to its own name. */
  lemma ReadOptionalPair(n: string, value: string, name: string)
    ensures ListingQuery.GetParam(Optional(n, value), name) == if n == name && value != "" then Some(value) else None
    ensures n != name ==> ListingQuery.GetAllParams(Optional(n, value), name) == []
  {
  }

  function FirstFound(x: Option<string>, y: Option<string>): Option<string> {
    if x.Some? then x else y
  }

  /** Reading through the five groups of `FilterParams`. */
  lemma ReadFive(a: ListingQuery.Params, b: ListingQuery.Params, c: ListingQuery.Params,
                 d: ListingQuery.Params, e: ListingQuery.Params, name: string)
    ensures ListingQuery.GetAllParams(a + (b + (c + (d + e))), name)
      == ListingQuery.GetAllParams(a, name) + (ListingQuery.GetAllParams(b, name) + (ListingQuery.GetAllParams(c, name)
         + (ListingQuery.GetAllParams(d, name) + ListingQuery.GetAllParams(e, name))))
    ensures ListingQuery.GetParam(a + (b + (c + (d + e))), name)
      == FirstFound(ListingQuery.GetParam(a, name), FirstFound(ListingQuery.GetParam(b, name),
         FirstFound(ListingQuery.GetParam(c, name), FirstFound(ListingQuery.GetParam(d, name), ListingQuery.GetParam(e, name)))))
  {
    GetAllParamsAppend(a, b + (c + (d + e)), name);
    GetAllParamsAppend(b, c + (d + e), name);
    GetAllParamsAppend(c, d + e, name);
    GetAllParamsAppend(d, e, name);
    GetParamAppend(a, b + (c + (d + e)), name);
    GetParamAppend(b, c + (d + e), name);
    GetParamAppend(c, d + e, name);
    GetParamAppend(d, e, name);
  }

  /** The specialization pairs carry no other name. */
  lemma SpecializationParamsOnly(values: seq<string>, name: string)
    requires name != "specialization"
    ensures ListingQuery.GetParam(SpecializationParams(values), name).None?
  {
  }

  /** Each optional filter reads back as sent, or as absent when it was empty. */
  lemma ReadOptionalFilter(f: FilterOptions, name: string, value: string)
    requires name in ["search", "priceRange", "region", "sortBy"]
    requires value == if name == "search" then f.search else if name == "priceRange" then f.priceRange
      else if name == "region" then f.region else f.sortBy
    ensures ListingQuery.GetParam(FilterParams(f), name) == if value == "" then None else Some(value)
  {
    ReadFive(Optional("search", f.search), SpecializationParams(f.specialization), Optional("priceRange", f.priceRange),
             Optional("region", f.region), Optional("sortBy", f.sortBy), name);
    ReadOptionalPair("search", f.search, name);
    SpecializationParamsOnly(f.specialization, name);
    ReadOptionalPair("priceRange", f.priceRange, name);
    ReadOptionalPair("region", f.region, name);
    ReadOptionalPair("sortBy", f.sortBy, name);
  }

  lemma ReadSpecializationFilter(f: FilterOptions)
    ensures ListingQuery.GetAllParams(FilterParams(f), "specialization") == f.specialization
  {
    ReadFive(Optional("search", f.search), SpecializationParams(f.specialization), Optional("priceRange", f.priceRange),
             Optional("region", f.region), Optional("sortBy", f.sortBy), "specialization");
    ReadOptionalPair("search", f.search, "specialization");
    ReadOptionalPair("priceRange", f.priceRange, "specialization");
    ReadOptionalPair("region", f.region, "specialization");
    ReadOptionalPair("sortBy", f.sortBy, "specialization");
    SpecializationParamsRead(f.specialization);
  }

  /**
   * The server reads back exactly the filters the page sent: the page number,
   * 10 per page, the search term, the selected specializations in order, the
   * bucket, the region and the sort key ("relevance" when none is set).
   */
  lemma QueryRoundTrip(f: FilterOptions, page: nat)
    ensures ListingQuery.ParseQuery(QueryParams(f, page))
      == ListingQuery.Query(Num(page), Num(10), f.search, f.specialization, f.priceRange, f.region,
                            if f.sortBy == "" then "relevance" else f.sortBy)
  {
    ReadPageAndLimit(f, page);
    ReadOptionalParam(f, page, "search", f.search, "");
    ReadOptionalParam(f, page, "priceRange", f.priceRange, "");
    ReadOptionalParam(f, page, "region", f.region, "");
    ReadOptionalParam(f, page, "sortBy", f.sortBy, "relevance");
    QueryParamsShape(f, page);
    ReadFixed(page, FilterParams(f), "specialization");
    ReadSpecializationFilter(f);
  }

  lemma ReadPageAndLimit(f: FilterOptions, page: nat)
    ensures ParseInt(ListingQuery.ParamOr(QueryParams(f, page), "page", "1")) == Num(page)
    ensures ParseInt(ListingQuery.ParamOr(QueryParams(f, page), "limit", "10")) == Num(10)
  {
    QueryParamsShape(f, page);
    ReadFixed(page, FilterParams(f), "page");
    ReadFixed(page, FilterParams(f), "limit");
    ParseIntNatToString(page);
    ParseIntNatToString(10);
    assert NatToString(10) == "10";
  }

  lemma ReadOptionalParam(f: FilterOptions, page: nat, name: string, value: string, fallback: string)
    requires name in ["search", "priceRange", "region", "sortBy"]
    requires value == if name == "search" then f.search else if name == "priceRange" then f.priceRange
      else if name == "region" then f.region else f.sortBy
    ensures ListingQuery.ParamOr(QueryParams(f, page), name, fallback) == if value == "" then fallback else value
  {
    QueryParamsShape(f, page);
    ReadFixed(page, FilterParams(f), name);
    ReadOptionalFilter(f, name, value);
  }

  /** `page` and `limit` come first; every other name is read from the pairs after them. */
  lemma ReadFixed(page: nat, rest: ListingQuery.Params, name: string)
    ensures ListingQuery.GetParam([("page", NatToString(page)), ("limit", "10")] + rest, name)
      == if name == "page" then Some(NatToString(page)) else if name == "limit" then Some("10")
         else ListingQuery.GetParam(rest, name)
    ensures name != "page" && name != "limit" ==>
      ListingQuery.GetAllParams([("page", NatToString(page)), ("limit", "10")] + rest, name) == ListingQuery.GetAllParams(rest, name)
  {
    GetParamAppend([("page", NatToString(page)), ("limit", "10")], rest, name);
    GetAllParamsAppend([("page", NatToString(page)), ("limit", "10")], rest, name);
  }

  /** The fee sort keys the page offers are not ones the server knows: the list keeps its stored order. */
  lemma FeeSortKeysIgnored(f: FilterOptions, page: nat, working: seq<ListingQuery.Doctor>)
    requires f.sortBy in ["fees_low", "fees_high", "experience"]
    ensures ListingQuery.Arrange(ListingQuery.ParseQuery(QueryParams(f, page)).sortBy, working) == working
  {
    ReadOptionalParam(f, page, "sortBy", f.sortBy, "relevance");
    assert ListingQuery.ParseQuery(QueryParams(f, page)).sortBy == f.sortBy;
    ListingQuery.ListingPageSortKeysIgnored(working);
  }

  /** The server keys the fee choices evidently stand for; every other choice is sent unchanged. */
  function ServerSortKey(sortBy: string): (key: string)
    ensures sortBy == "fees_low" ==> key == "price_low"
    ensures sortBy == "fees_high" ==> key == "price_high"
    ensures sortBy !in ["fees_low", "fees_high"] ==> key == sortBy
  {
    if sortBy == "fees_low" then "price_low" else if sortBy == "fees_high" then "price_high" else sortBy
  }

  /** With the fee keys translated, "Fees: Low to High" and "Fees: High to Low" order the list by fee. */
  lemma TranslatedFeeSortOrders(f: FilterOptions, page: nat, working: seq<ListingQuery.Doctor>)
    requires f.sortBy in ["fees_low", "fees_high"]
    ensures var r := ListingQuery.Arrange(ServerSortKey(ListingQuery.ParseQuery(QueryParams(f, page)).sortBy), working);
      && multiset(r) == multiset(working)
      && (f.sortBy == "fees_low" ==> forall i, j :: 0 <= i < j < |r| ==> r[i].priceRange <= r[j].priceRange)
      && (f.sortBy == "fees_high" ==> forall i, j :: 0 <= i < j < |r| ==> r[i].priceRange >= r[j].priceRange)
  {
    ReadOptionalParam(f, page, "sortBy", f.sortBy, "relevance");
    assert ListingQuery.ParseQuery(QueryParams(f, page)).sortBy == f.sortBy;
    ListingQuery.ArrangeMeaning(ServerSortKey(f.sortBy), working);
  }
}
