/** The dashboard's listings, its filter criteria and the pure parts of its
    filter pipeline: one predicate per stage of `applyFilters`, the
    active-filter count and the favourite flip. */
module Listings {
  import opened Wrappers
  import opened Sequences
  import opened EcmaScript

  /** One listing. `category` is the listing's `type` field; prices and areas are
      integers; the coordinates are carried along and never computed on. An
      absent `isFavorite` reads as false wherever the dashboard reads it. */
  datatype Property = Property(
    id: int,
    title: string,
    price: int,
    location: string,
    lat: real,
    lng: real,
    bedrooms: int,
    bathrooms: int,
    area: int,
    category: string,
    imageUrl: Option<string>,
    isFavorite: bool)

  /** The filter panel's fields, each held as the text of its input. */
  datatype Filters = Filters(
    propertyType: string,
    minPrice: string,
    maxPrice: string,
    minArea: string,
    maxArea: string,
    minBedrooms: string,
    minBathrooms: string)

  /** What the dashboard starts with and what "reset" restores. */
  const DefaultFilters := Filters("all", "", "", "", "", "", "")

  /** The seven fields of `Filters`, in the order the counter visits them. */
  datatype Field = PropertyType | MinPrice | MaxPrice | MinArea | MaxArea | MinBedrooms | MinBathrooms

  const AllFields: seq<Field> := [PropertyType, MinPrice, MaxPrice, MinArea, MaxArea, MinBedrooms, MinBathrooms]

  /** A field is at its default: the type selector at `"all"`, a text field
      empty (any non-empty text, `"0"` included, is truthy and so set). */
  predicate IsDefault(f: Filters, field: Field) {
    match field
    case PropertyType => f.propertyType == "all"
    case MinPrice => f.minPrice == ""
    case MaxPrice => f.maxPrice == ""
    case MinArea => f.minArea == ""
    case MaxArea => f.maxArea == ""
    case MinBedrooms => f.minBedrooms == ""
    case MinBathrooms => f.minBathrooms == ""
  }

  /** The fields that are not at their default, in counter order. */
  function NonDefaultFields(f: Filters): seq<Field> {
    Filter(AllFields, (field: Field) => !IsDefault(f, field))
  }

  /** The counter of the filter badge lies between 0 and 7 and is 0 exactly
      when every field is at its default. */
  lemma ActiveCountBounds(f: Filters)
    ensures |NonDefaultFields(f)| <= 7
    ensures |NonDefaultFields(f)| == 0 <==> f == DefaultFilters
  {
    CountUnrolled(f);
  }

  /** After a reset the badge counts nothing. */
  lemma DefaultsInactive()
    ensures |NonDefaultFields(DefaultFilters)| == 0
  {
    ActiveCountBounds(DefaultFilters);
  }

  /** The fields counted are exactly those not at their default. */
  lemma NonDefaultFieldsExactly(f: Filters, field: Field)
    ensures field in NonDefaultFields(f) <==> !IsDefault(f, field)
  {
    var i := match field
      case PropertyType => 0 case MinPrice => 1 case MaxPrice => 2 case MinArea => 3
      case MaxArea => 4 case MinBedrooms => 5 case MinBathrooms => 6;
    assert AllFields[i] == field;
  }

  /** The counting effect's run of `if`s: one increment per field that is
      not at its default. */
  method CountActive(f: Filters) returns (count: nat)
    ensures count == |NonDefaultFields(f)|
  {
    count := 0;
    if f.propertyType != "all" { count := count + 1; }
    assert count == Mark(f, PropertyType);
    if f.minPrice != "" { count := count + 1; }
    assert count == Mark(f, PropertyType) + Mark(f, MinPrice);
    if f.maxPrice != "" { count := count + 1; }
    assert count == Mark(f, PropertyType) + Mark(f, MinPrice) + Mark(f, MaxPrice);
    if f.minArea != "" { count := count + 1; }
    assert count == Mark(f, PropertyType) + Mark(f, MinPrice) + Mark(f, MaxPrice) + Mark(f, MinArea);
    if f.maxArea != "" { count := count + 1; }
    assert count == Mark(f, PropertyType) + Mark(f, MinPrice) + Mark(f, MaxPrice) + Mark(f, MinArea)
                  + Mark(f, MaxArea);
    if f.minBedrooms != "" { count := count + 1; }
    assert count == Mark(f, PropertyType) + Mark(f, MinPrice) + Mark(f, MaxPrice) + Mark(f, MinArea)
                  + Mark(f, MaxArea) + Mark(f, MinBedrooms);
    if f.minBathrooms != "" { count := count + 1; }
    CountUnrolled(f);
  }

  /** 1 when the field counts towards the badge, else 0. */
  function Mark(f: Filters, field: Field): nat {
    if IsDefault(f, field) then 0 else 1
  }

  /** The number of non-default fields, one field at a time. */
  lemma CountUnrolled(f: Filters)
    ensures |NonDefaultFields(f)|
      == Mark(f, PropertyType) + Mark(f, MinPrice) + Mark(f, MaxPrice) + Mark(f, MinArea)
       + Mark(f, MaxArea) + Mark(f, MinBedrooms) + Mark(f, MinBathrooms)
  {
    var keep := (field: Field) => !IsDefault(f, field);
    var s6 := [MinBathrooms];
    var s5 := [MinBedrooms] + s6;
    var s4 := [MaxArea] + s5;
    var s3 := [MinArea] + s4;
    var s2 := [MaxPrice] + s3;
    var s1 := [MinPrice] + s2;
    assert AllFields == [PropertyType] + s1;
    assert s6 == [MinBathrooms] + [];
    FilterLengthCons(MinBathrooms, [], keep);
    assert |Filter(s6, keep)| == Mark(f, MinBathrooms);
    FilterLengthCons(MinBedrooms, s6, keep);
    assert |Filter(s5, keep)| == Mark(f, MinBedrooms) + Mark(f, MinBathrooms);
    FilterLengthCons(MaxArea, s5, keep);
    assert |Filter(s4, keep)| == Mark(f, MaxArea) + Mark(f, MinBedrooms) + Mark(f, MinBathrooms);
    FilterLengthCons(MinArea, s4, keep);
    assert |Filter(s3, keep)| == Mark(f, MinArea) + Mark(f, MaxArea) + Mark(f, MinBedrooms) + Mark(f, MinBathrooms);
    FilterLengthCons(MaxPrice, s3, keep);
    assert |Filter(s2, keep)| == Mark(f, MaxPrice) + Mark(f, MinArea) + Mark(f, MaxArea) + Mark(f, MinBedrooms)
                               + Mark(f, MinBathrooms);
    FilterLengthCons(MinPrice, s2, keep);
    assert |Filter(s1, keep)| == Mark(f, MinPrice) + Mark(f, MaxPrice) + Mark(f, MinArea) + Mark(f, MaxArea)
                               + Mark(f, MinBedrooms) + Mark(f, MinBathrooms);
    FilterLengthCons(PropertyType, s1, keep);
  }

  // ------------------------------------------------------------- the stages

  /** Each stage as a condition on one listing, holding trivially when the
      stage is switched off (its field at the default, or an empty query). */
  predicate PassesCategory(p: Property, f: Filters) {
    f.propertyType != "all" ==> p.category == f.propertyType
  }

  predicate PassesMinPrice(p: Property, f: Filters) {
    f.minPrice != "" ==> AtLeast(p.price, ParseInt(f.minPrice))
  }

  predicate PassesMaxPrice(p: Property, f: Filters) {
    f.maxPrice != "" ==> AtMost(p.price, ParseInt(f.maxPrice))
  }

  predicate PassesMinArea(p: Property, f: Filters) {
    f.minArea != "" ==> AtLeast(p.area, ParseInt(f.minArea))
  }

  predicate PassesMaxArea(p: Property, f: Filters) {
    f.maxArea != "" ==> AtMost(p.area, ParseInt(f.maxArea))
  }

  predicate PassesMinBedrooms(p: Property, f: Filters) {
    f.minBedrooms != "" ==> AtLeast(p.bedrooms, ParseInt(f.minBedrooms))
  }

  predicate PassesMinBathrooms(p: Property, f: Filters) {
    f.minBathrooms != "" ==> AtLeast(p.bathrooms, ParseInt(f.minBathrooms))
  }

  /** The search callback: the lower-cased title or location contains the
      lower-cased query. */
  predicate MentionsQuery(p: Property, query: string) {
    Includes(ToLowerCase(p.title), ToLowerCase(query)) || Includes(ToLowerCase(p.location), ToLowerCase(query))
  }

  predicate PassesSearch(p: Property, query: string) {
    query != "" ==> MentionsQuery(p, query)
  }

  /** A listing passes every stage of the pipeline. */
  predicate Matches(p: Property, f: Filters, query: string) {
    && PassesCategory(p, f)
    && PassesMinPrice(p, f) && PassesMaxPrice(p, f)
    && PassesMinArea(p, f) && PassesMaxArea(p, f)
    && PassesMinBedrooms(p, f) && PassesMinBathrooms(p, f)
    && PassesSearch(p, query)
  }

  /** The reference for `applyFilters`: one pass over the master list keeping
      the listings that pass every stage. */
  function Selected(s: seq<Property>, f: Filters, query: string): seq<Property> {
    Filter(s, (p: Property) => Matches(p, f, query))
  }

  // ---------------------------------------------------- what the filter keeps

  /** The result keeps the master list's order and never invents or repeats
      a listing. */
  lemma SelectedIsSubsequence(s: seq<Property>, f: Filters, query: string)
    ensures IsSubsequence(Selected(s, f, query), s)
    ensures multiset(Selected(s, f, query)) <= multiset(s)
    ensures |Selected(s, f, query)| <= |s|
  {
    FilterIsSubsequence(s, (p: Property) => Matches(p, f, query));
    SubsequenceMultiset(Selected(s, f, query), s);
  }

  /** A listing is kept if and only if it is in the master list and meets
      every bound that is set, inclusively, and the search when there is one. */
  lemma SelectedMembership(s: seq<Property>, f: Filters, query: string, p: Property)
    ensures p in Selected(s, f, query) <==>
      && p in s
      && (f.propertyType != "all" ==> p.category == f.propertyType)
      && (f.minPrice != "" ==> ParseInt(f.minPrice).Some? && p.price >= ParseInt(f.minPrice).value)
      && (f.maxPrice != "" ==> ParseInt(f.maxPrice).Some? && p.price <= ParseInt(f.maxPrice).value)
      && (f.minArea != "" ==> ParseInt(f.minArea).Some? && p.area >= ParseInt(f.minArea).value)
      && (f.maxArea != "" ==> ParseInt(f.maxArea).Some? && p.area <= ParseInt(f.maxArea).value)
      && (f.minBedrooms != "" ==> ParseInt(f.minBedrooms).Some? && p.bedrooms >= ParseInt(f.minBedrooms).value)
      && (f.minBathrooms != "" ==> ParseInt(f.minBathrooms).Some? && p.bathrooms >= ParseInt(f.minBathrooms).value)
      && (query != "" ==> MentionsQuery(p, query))
  {
    var r := Selected(s, f, query);
    if p in r {
      var i :| 0 <= i < |r| && r[i] == p;
    }
    if p in s && Matches(p, f, query) {
      var i :| 0 <= i < |s| && s[i] == p;
    }
  }

  /** With the default filters and no query the pipeline keeps everything,
      in order. */
  lemma SelectedDefaults(s: seq<Property>)
    ensures Selected(s, DefaultFilters, "") == s
  {
    FilterKeepsAll(s, (p: Property) => Matches(p, DefaultFilters, ""));
  }

  /** A set bound that `parseInt` reads as `NaN` fails every comparison, so
      the pipeline returns nothing at all. */
  lemma SelectedWithUnparsableBound(s: seq<Property>, f: Filters, query: string)
    requires || (f.minPrice != "" && ParseInt(f.minPrice).None?)
             || (f.maxPrice != "" && ParseInt(f.maxPrice).None?)
             || (f.minArea != "" && ParseInt(f.minArea).None?)
             || (f.maxArea != "" && ParseInt(f.maxArea).None?)
             || (f.minBedrooms != "" && ParseInt(f.minBedrooms).None?)
             || (f.minBathrooms != "" && ParseInt(f.minBathrooms).None?)
    ensures Selected(s, f, query) == []
  {
    FilterDropsAll(s, (p: Property) => Matches(p, f, query));
  }

  /** The search ignores case in the query: it lower-cases the query itself. */
  lemma SelectedIgnoresQueryCase(s: seq<Property>, f: Filters, query: string)
    ensures Selected(s, f, ToLowerCase(query)) == Selected(s, f, query)
  {
    ToLowerCaseIdempotent(query);
    assert (ToLowerCase(query) == "") == (query == "");
    FilterAgree(s, (p: Property) => Matches(p, f, ToLowerCase(query)), (p: Property) => Matches(p, f, query));
  }

  // ------------------------------------------------------------ the favourite

  /** The listing with its favourite flag flipped when its id matches. */
  function Toggled(p: Property, id: int): Property {
    if p.id == id then p.(isFavorite := !p.isFavorite) else p
  }

  /** Each listing whose id matches gets its favourite flag flipped; every
      other listing, and every other field, stays as it was. */
  function ToggleIn(s: seq<Property>, id: int): (r: seq<Property>)
    ensures |r| == |s|
    ensures forall i :: 0 <= i < |s| ==>
      && r[i].isFavorite == (if s[i].id == id then !s[i].isFavorite else s[i].isFavorite)
      && r[i].(isFavorite := s[i].isFavorite) == s[i]
  {
    Mapped(s, (p: Property) => Toggled(p, id))
  }

  /** The ids of a list, in order. */
  function Ids(s: seq<Property>): seq<int> {
    seq(|s|, i requires 0 <= i < |s| => s[i].id)
  }

  /** Toggling keeps the list's length, order and ids. */
  lemma ToggleKeepsIds(s: seq<Property>, id: int)
    ensures Ids(ToggleIn(s, id)) == Ids(s)
  {
  }

  /** Toggling the same id twice restores the list. */
  lemma ToggleTwice(s: seq<Property>, id: int)
    ensures ToggleIn(ToggleIn(s, id), id) == s
  {
    var t := ToggleIn(ToggleIn(s, id), id);
    forall i | 0 <= i < |s|
      ensures t[i] == s[i]
    {
      assert ToggleIn(s, id)[i].id == s[i].id;
    }
  }

  /** No stage looks at the favourite flag, so toggling and filtering
      commute: toggling both lists keeps the filtered list equal to the
      pipeline's result on the toggled master list. */
  lemma SelectedToggle(s: seq<Property>, f: Filters, query: string, id: int)
    ensures Selected(ToggleIn(s, id), f, query) == ToggleIn(Selected(s, f, query), id)
  {
    var keep := (p: Property) => Matches(p, f, query);
    forall p: Property
      ensures keep(Toggled(p, id)) == keep(p)
    {
      MatchesIgnoresFlag(p, f, query, !p.isFavorite);
    }
    FilterMapped(s, keep, (p: Property) => Toggled(p, id));
  }

  /** No stage reads the favourite flag. */
  lemma MatchesIgnoresFlag(p: Property, f: Filters, query: string, flag: bool)
    ensures Matches(p.(isFavorite := flag), f, query) == Matches(p, f, query)
  {
    var q := p.(isFavorite := flag);
    assert q.category == p.category && q.price == p.price && q.area == p.area;
    assert q.bedrooms == p.bedrooms && q.bathrooms == p.bathrooms;
    assert q.title == p.title && q.location == p.location;
    assert MentionsQuery(q, query) == MentionsQuery(p, query);
  }
}
