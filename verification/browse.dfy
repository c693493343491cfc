/**
 * The Browse page: the visibility gate applied when items are fetched, the
 * conjunction of per-item filters applied to the fetched list, and the filter
 * state's round trip through the page URL.
 */
module Browse {
  import opened Wrappers
  import opened Text
  import opened Dates
  import opened Schema
  import opened QueryParams
  import opened Search
  import Seqs

  // ---------------------------------------------------------------- fetch

  /** The fetch predicate: an active row, and for anyone but staff a `found` row. */
  predicate Visible(it: Item, role: Role) {
    it.isActive == Some(true) && (role == Some(Staff) || it.status == Found)
  }

  /**
   * `fetchItems`: the rows of `items` the query returns, in the order the database
   * returns them (newest first; the ordering itself is the database's).
   */
  function FetchItems(table: seq<Item>, role: Role): (r: seq<Item>)
    ensures Seqs.IsSubsequence(r, table)
    ensures forall k :: 0 <= k < |r| ==> r[k].isActive == Some(true)
    ensures role != Some(Staff) ==> forall k :: 0 <= k < |r| ==> r[k].status == Found
    ensures forall k :: 0 <= k < |table| && Visible(table[k], role) ==> table[k] in r
  {
    Seqs.FilterIsSubsequence(table, it => Visible(it, role));
    Seqs.Filter(table, it => Visible(it, role))
  }

  // ---------------------------------------------------------------- filter state

  /** The seven filters the page keeps in state and mirrors in the URL. */
  datatype Filters = Filters(
    query: string,
    status: string,
    category: string,
    color: string,
    location: string,
    dateFrom: string,
    dateTo: string)

  /** `hasActiveFilters`: some filter differs from its neutral value. */
  function HasActiveFilters(f: Filters): (active: bool)
    ensures !active <==> f == Filters("", "all", "all", "", "", "", "")
  {
    f.query != "" || f.status != "all" || f.category != "all" || f.color != ""
    || f.location != "" || f.dateFrom != "" || f.dateTo != ""
  }

  /** `clearAllFilters`: every filter back to its neutral value. */
  function ClearAllFilters(): (f: Filters)
    ensures !HasActiveFilters(f)
    ensures forall g :: !HasActiveFilters(g) ==> g == f
  {
    Filters("", "all", "all", "", "", "", "")
  }

  // ---------------------------------------------------------------- per-item criteria

  /** The search text is lower-cased and trimmed before it is looked for. */
  function SearchKey(query: string): string {
    Trim(Lower(query))
  }

  /** The free-text criterion: title, description, location, and color, venue and container when present. */
  predicate MatchesSearch(it: Item, query: string) {
    var key := SearchKey(query);
    key == ""
    || Contains(Lower(it.title), key)
    || Contains(Lower(it.description), key)
    || FieldContains(it.color, key)
    || Contains(Lower(it.location), key)
    || FieldContains(it.venue, key)
    || FieldContains(it.container, key)
  }

  predicate MatchesStatus(it: Item, status: string) {
    status == "all" || StatusName(it.status) == status
  }

  predicate MatchesCategory(it: Item, category: string) {
    category == "all" || CategoryName(it.category) == category
  }

  predicate MatchesColor(it: Item, color: string) {
    color == "" || FieldContains(it.color, Lower(color))
  }

  predicate MatchesLocation(it: Item, location: string) {
    location == "" || Contains(Lower(it.location), Lower(location)) || FieldContains(it.venue, Lower(location))
  }

  /** The date range: `dateFrom` from the start of its day, `dateTo` to the end of its day. */
  predicate MatchesDate(it: Item, dateFrom: string, dateTo: string, parse: DateParser) {
    var itemDate := parse(it.dateLostFound);
    (dateFrom == "" || AtOrAfter(itemDate, StartOfDay(parse(dateFrom))))
    && (dateTo == "" || AtOrBefore(itemDate, EndOfDay(parse(dateTo))))
  }

  /** An item passes when it meets every criterion. */
  predicate Matches(it: Item, f: Filters, parse: DateParser) {
    MatchesSearch(it, f.query) && MatchesStatus(it, f.status) && MatchesCategory(it, f.category)
    && MatchesColor(it, f.color) && MatchesLocation(it, f.location)
    && MatchesDate(it, f.dateFrom, f.dateTo, parse)
  }

  /** With every filter neutral, every item passes. */
  lemma NeutralFiltersMatchEverything(it: Item, f: Filters, parse: DateParser)
    requires !HasActiveFilters(f)
    ensures Matches(it, f, parse)
  {
    assert SearchKey("") == "";
  }

  /**
   * `filteredItems`: the fetched list itself when no filter is active, otherwise
   * the items that pass, in their fetched order.
   */
  function FilteredItems(items: seq<Item>, f: Filters, parse: DateParser): (r: seq<Item>)
    ensures Seqs.IsSubsequence(r, items)
    ensures forall k :: 0 <= k < |r| ==> r[k] in items && Matches(r[k], f, parse)
    ensures forall k :: 0 <= k < |items| && Matches(items[k], f, parse) ==> items[k] in r
  {
    if !HasActiveFilters(f) then
      Seqs.SubsequenceReflexive(items);
      assert forall k :: 0 <= k < |items| ==> items[k] in items && Matches(items[k], f, parse) by {
        forall k | 0 <= k < |items| ensures Matches(items[k], f, parse) {
          NeutralFiltersMatchEverything(items[k], f, parse);
        }
      }
      items
    else
      Seqs.FilterIsSubsequence(items, it => Matches(it, f, parse));
      Seqs.Filter(items, it => Matches(it, f, parse))
  }

  /** The shortcut for neutral filters returns what the filter would have returned. */
  lemma ShortcutAgreesWithFilter(items: seq<Item>, f: Filters, parse: DateParser)
    ensures FilteredItems(items, f, parse) == Seqs.Filter(items, it => Matches(it, f, parse))
  {
    if !HasActiveFilters(f) {
      forall k | 0 <= k < |items| ensures Matches(items[k], f, parse) {
        NeutralFiltersMatchEverything(items[k], f, parse);
      }
      Seqs.FilterAll(items, it => Matches(it, f, parse));
    }
  }

  /** Filtering the filtered list again with the same state changes nothing. */
  lemma FilteredItemsIdempotent(items: seq<Item>, f: Filters, parse: DateParser)
    ensures FilteredItems(FilteredItems(items, f, parse), f, parse) == FilteredItems(items, f, parse)
  {
    ShortcutAgreesWithFilter(items, f, parse);
    ShortcutAgreesWithFilter(FilteredItems(items, f, parse), f, parse);
    Seqs.FilterIdempotent(items, it => Matches(it, f, parse));
  }

  /**
   * `g` narrows `f`: each of `f`'s filters is either neutral or the same as `g`'s.
   * Setting a filter on the page moves from `f` to such a `g`.
   */
  predicate Narrows(g: Filters, f: Filters) {
    (f.query == "" || f.query == g.query)
    && (f.status == "all" || f.status == g.status)
    && (f.category == "all" || f.category == g.category)
    && (f.color == "" || f.color == g.color)
    && (f.location == "" || f.location == g.location)
    && (f.dateFrom == "" || f.dateFrom == g.dateFrom)
    && (f.dateTo == "" || f.dateTo == g.dateTo)
  }

  lemma NarrowerMatchesFewer(it: Item, g: Filters, f: Filters, parse: DateParser)
    requires Narrows(g, f)
    ensures Matches(it, g, parse) ==> Matches(it, f, parse)
  {
    assert SearchKey("") == "";
  }

  /** Filtering with a narrower state is filtering the already filtered list. */
  lemma NarrowingFiltersTheFilteredList(items: seq<Item>, g: Filters, f: Filters, parse: DateParser)
    requires Narrows(g, f)
    ensures FilteredItems(FilteredItems(items, f, parse), g, parse) == FilteredItems(items, g, parse)
  {
    var pf := (it: Item) => Matches(it, f, parse);
    var pg := (it: Item) => Matches(it, g, parse);
    var pfg := (it: Item) => Matches(it, f, parse) && Matches(it, g, parse);
    ShortcutAgreesWithFilter(items, f, parse);
    ShortcutAgreesWithFilter(items, g, parse);
    ShortcutAgreesWithFilter(FilteredItems(items, f, parse), g, parse);
    Seqs.FilterCompose(items, pf, pg, pfg);
    forall k | 0 <= k < |items| ensures pfg(items[k]) == pg(items[k]) {
      if Matches(items[k], g, parse) {
        NarrowerMatchesFewer(items[k], g, f, parse);
      }
    }
    Seqs.FilterCongruent(items, pfg, pg);
  }

  // ---------------------------------------------------------------- criterion facts

  /** The search ignores letter case and surrounding white space in the query. */
  lemma SearchIgnoresCaseAndPadding(it: Item, query: string)
    ensures MatchesSearch(it, Lower(query)) == MatchesSearch(it, query)
    ensures MatchesSearch(it, Trim(query)) == MatchesSearch(it, query)
  {
    LowerIdempotent(query);
    LowerOfTrim(query);
    TrimIdempotent(Lower(query));
  }

  /** A query of white space only matches every item. */
  lemma BlankQueryMatchesEverything(it: Item, query: string)
    requires forall k :: 0 <= k < |query| ==> IsSpace(query[k])
    ensures MatchesSearch(it, query)
  {
    assert SearchKey(query) == "" by {
      forall k | 0 <= k < |query| ensures IsSpace(Lower(query)[k]) {
        LowerKeepsSpace(query[k]);
      }
      TrimEmptyIffBlank(Lower(query));
    }
  }

  /** A match on venue or container alone is enough for the search. */
  lemma SearchFindsVenueAndContainer(it: Item, query: string)
    ensures FieldContains(it.venue, SearchKey(query)) ==> MatchesSearch(it, query)
    ensures FieldContains(it.container, SearchKey(query)) ==> MatchesSearch(it, query)
  {
  }

  /** Status and category pass on "all", and otherwise only on the item's own label. */
  lemma StatusAndCategoryAreExact(it: Item, f: Filters, parse: DateParser)
    requires Matches(it, f, parse)
    ensures f.status == "all" || f.status == StatusName(it.status)
    ensures f.category == "all" || f.category == CategoryName(it.category)
  {
  }

  /** A color filter rejects an item without a color. */
  lemma ColorFilterNeedsColor(it: Item, f: Filters, parse: DateParser)
    requires f.color != "" && !Truthy(it.color)
    ensures !Matches(it, f, parse)
  {
  }

  /** The location filter accepts an item whose venue alone contains it. */
  lemma LocationFilterAcceptsVenue(it: Item, location: string)
    requires location != "" && FieldContains(it.venue, Lower(location))
    ensures MatchesLocation(it, location)
  {
  }

  /**
   * Date bounds are inclusive whole days: with valid dates, an item passes the range
   * exactly when its day lies between the day of `dateFrom` and the day of `dateTo`.
   */
  lemma DateRangeIsInclusiveByDay(it: Item, dateFrom: string, dateTo: string, parse: DateParser)
    requires dateFrom != "" && dateTo != ""
    requires parse(it.dateLostFound).Valid? && parse(dateFrom).Valid? && parse(dateTo).Valid?
    ensures MatchesDate(it, dateFrom, dateTo, parse)
      <==> DayOf(parse(dateFrom).ms) <= DayOf(parse(it.dateLostFound).ms) <= DayOf(parse(dateTo).ms)
  {
    AtOrAfterStartOfDayIffDay(parse(it.dateLostFound), parse(dateFrom));
    AtOrBeforeEndOfDayIffDay(parse(it.dateLostFound), parse(dateTo));
  }

  /** An item whose date does not parse fails any date bound, as does any bound that does not parse. */
  lemma UnparsableDatesFailBounds(it: Item, dateFrom: string, dateTo: string, parse: DateParser)
    requires dateFrom != "" || dateTo != ""
    requires parse(it.dateLostFound).Invalid?
      || (dateFrom != "" && parse(dateFrom).Invalid?)
      || (dateTo != "" && parse(dateTo).Invalid?)
    ensures !MatchesDate(it, dateFrom, dateTo, parse)
  {
  }

  // ---------------------------------------------------------------- role gate

  /**
   * Whatever status filter the URL holds, a user who is not staff sees only `found`
   * items; a status filter other than "all" or "found" leaves such a user nothing.
   */
  lemma NonStaffSeeOnlyFound(table: seq<Item>, role: Role, f: Filters, parse: DateParser)
    requires role != Some(Staff)
    ensures forall k :: 0 <= k < |FilteredItems(FetchItems(table, role), f, parse)| ==>
      FilteredItems(FetchItems(table, role), f, parse)[k].status == Found
    ensures f.status != "all" && f.status != "found" ==> FilteredItems(FetchItems(table, role), f, parse) == []
  {
    var fetched := FetchItems(table, role);
    var r := FilteredItems(fetched, f, parse);
    FilteredFoundStayFound(fetched, f, parse);
    if f.status != "all" && f.status != "found" && r != [] {
      StatusAndCategoryAreExact(r[0], f, parse);
      assert false;
    }
  }

  /** Filtering a list of found items leaves only found items. */
  lemma FilteredFoundStayFound(items: seq<Item>, f: Filters, parse: DateParser)
    requires forall k :: 0 <= k < |items| ==> items[k].status == Found
    ensures forall k :: 0 <= k < |FilteredItems(items, f, parse)| ==> FilteredItems(items, f, parse)[k].status == Found
  {
    var r := FilteredItems(items, f, parse);
    forall k | 0 <= k < |r| ensures r[k].status == Found {
      var j :| 0 <= j < |items| && items[j] == r[k];
    }
  }

  /** The status control the filter bar shows: staff get theirs, everyone else a fixed "all". */
  function ShownStatusFilter(role: Role, roleLoading: bool, status: string): (shown: string)
    ensures role != Some(Staff) || roleLoading ==> shown == "all"
    ensures role == Some(Staff) && !roleLoading ==> shown == status
  {
    if role == Some(Staff) && !roleLoading then status else "all"
  }

  // ---------------------------------------------------------------- URL

  /** `searchParams.get(name) || fallback`. */
  function ReadParam(p: Params, name: string, fallback: string): (v: string)
    ensures v == fallback || (Get(p, name) == Some(v) && v != "")
  {
    match Get(p, name)
    case Some(v) => if v == "" then fallback else v
    case None => fallback
  }

  /** The filter state the page starts from, read from the URL. */
  function ReadFilters(p: Params): (f: Filters)
    ensures f.status != "" && f.category != ""
  {
    Filters(
      ReadParam(p, "q", ""),
      ReadParam(p, "status", "all"),
      ReadParam(p, "category", "all"),
      ReadParam(p, "color", ""),
      ReadParam(p, "location", ""),
      ReadParam(p, "dateFrom", ""),
      ReadParam(p, "dateTo", ""))
  }

  /** One URL entry, omitted when its value is empty or the neutral `omit`. */
  function Entry(name: string, v: string, omit: string): (p: Params)
    ensures p == [] <==> v == "" || v == omit
    ensures p != [] ==> p == [(name, v)]
  {
    if v == "" || v == omit then [] else [(name, v)]
  }

  /** The URL the page writes for a filter state: set filters only, in a fixed order. */
  function WriteFilters(f: Filters): (p: Params)
    ensures !HasActiveFilters(f) ==> p == []
    ensures forall k :: 0 <= k < |p| ==> p[k].1 != ""
  {
    Entry("q", f.query, "") + Entry("status", f.status, "all") + Entry("category", f.category, "all")
    + Entry("color", f.color, "") + Entry("location", f.location, "")
    + Entry("dateFrom", f.dateFrom, "") + Entry("dateTo", f.dateTo, "")
  }

  /** What the URL keeps of one filter: its value, or nothing when that is empty or neutral. */
  function Kept(v: string, omit: string): Option<string> {
    if v == "" || v == omit then None else Some(v)
  }

  lemma GetEntry(name: string, v: string, omit: string, key: string)
    ensures Get(Entry(name, v, omit), key) == if key == name then Kept(v, omit) else None
  {
  }

  /** Looking one name up in the written URL finds the value that filter kept. */
  lemma GetWritten(f: Filters, key: string)
    ensures key == "q" ==> Get(WriteFilters(f), key) == Kept(f.query, "")
    ensures key == "status" ==> Get(WriteFilters(f), key) == Kept(f.status, "all")
    ensures key == "category" ==> Get(WriteFilters(f), key) == Kept(f.category, "all")
    ensures key == "color" ==> Get(WriteFilters(f), key) == Kept(f.color, "")
    ensures key == "location" ==> Get(WriteFilters(f), key) == Kept(f.location, "")
    ensures key == "dateFrom" ==> Get(WriteFilters(f), key) == Kept(f.dateFrom, "")
    ensures key == "dateTo" ==> Get(WriteFilters(f), key) == Kept(f.dateTo, "")
  {
    var e1, e2, e3, e4 := Entry("q", f.query, ""), Entry("status", f.status, "all"), Entry("category", f.category, "all"), Entry("color", f.color, "");
    var e5, e6, e7 := Entry("location", f.location, ""), Entry("dateFrom", f.dateFrom, ""), Entry("dateTo", f.dateTo, "");
    GetEntry("q", f.query, "", key);
    GetEntry("status", f.status, "all", key);
    GetEntry("category", f.category, "all", key);
    GetEntry("color", f.color, "", key);
    GetEntry("location", f.location, "", key);
    GetEntry("dateFrom", f.dateFrom, "", key);
    GetEntry("dateTo", f.dateTo, "", key);
    GetAppend(e1, e2, key);
    GetAppend(e1 + e2, e3, key);
    GetAppend(e1 + e2 + e3, e4, key);
    GetAppend(e1 + e2 + e3 + e4, e5, key);
    GetAppend(e1 + e2 + e3 + e4 + e5, e6, key);
    GetAppend(e1 + e2 + e3 + e4 + e5 + e6, e7, key);
  }

  /** Reading a written URL gives the state back, except that an empty status or category reads as "all". */
  lemma ReadWritten(f: Filters)
    ensures ReadFilters(WriteFilters(f)) == f.(status := if f.status == "" then "all" else f.status,
                                               category := if f.category == "" then "all" else f.category)
  {
    var p := WriteFilters(f);
    assert ReadParam(p, "q", "") == f.query by { GetWritten(f, "q"); }
    assert ReadParam(p, "status", "all") == (if f.status == "" then "all" else f.status) by { GetWritten(f, "status"); }
    assert ReadParam(p, "category", "all") == (if f.category == "" then "all" else f.category) by { GetWritten(f, "category"); }
    assert ReadParam(p, "color", "") == f.color by { GetWritten(f, "color"); }
    assert ReadParam(p, "location", "") == f.location by { GetWritten(f, "location"); }
    assert ReadParam(p, "dateFrom", "") == f.dateFrom by { GetWritten(f, "dateFrom"); }
    assert ReadParam(p, "dateTo", "") == f.dateTo by { GetWritten(f, "dateTo"); }
  }

  /** Reading the written URL restores the state, as long as status and category are not empty. */
  lemma ReadWriteRoundTrip(f: Filters)
    requires f.status != "" && f.category != ""
    ensures ReadFilters(WriteFilters(f)) == f
  {
    ReadWritten(f);
  }

  /** Writing what was read from a written URL gives the same URL: the URL form is a normal form. */
  lemma WriteReadWrite(f: Filters)
    ensures WriteFilters(ReadFilters(WriteFilters(f))) == WriteFilters(f)
  {
    ReadWritten(f);
    var g := ReadFilters(WriteFilters(f));
    assert Entry("status", g.status, "all") == Entry("status", f.status, "all");
    assert Entry("category", g.category, "all") == Entry("category", f.category, "all");
  }
}
