/**
 * The older Browse page under `src/`: the same fetch gate and filter bar, but a
 * search that neither trims nor looks at venue and container, a location filter
 * that ignores the venue, and date bounds compared as parsed, without day clamping.
 */
module LegacyBrowse {
  import opened Wrappers
  import opened Text
  import opened Dates
  import opened Schema
  import opened Search
  import Seqs
  import Browse

  /** The older free-text criterion: title, description, color when present, and location. */
  predicate MatchesSearch(it: Item, query: string) {
    var key := Lower(query);
    Contains(Lower(it.title), key)
    || Contains(Lower(it.description), key)
    || FieldContains(it.color, key)
    || Contains(Lower(it.location), key)
  }

  predicate MatchesLocation(it: Item, location: string) {
    location == "" || Contains(Lower(it.location), Lower(location))
  }

  /** The date bounds as parsed: no start-of-day or end-of-day adjustment. */
  predicate MatchesDate(it: Item, dateFrom: string, dateTo: string, parse: DateParser) {
    var itemDate := parse(it.dateLostFound);
    (dateFrom == "" || AtOrAfter(itemDate, parse(dateFrom)))
    && (dateTo == "" || AtOrBefore(itemDate, parse(dateTo)))
  }

  predicate Matches(it: Item, f: Browse.Filters, parse: DateParser) {
    MatchesSearch(it, f.query) && Browse.MatchesStatus(it, f.status) && Browse.MatchesCategory(it, f.category)
    && Browse.MatchesColor(it, f.color) && MatchesLocation(it, f.location)
    && MatchesDate(it, f.dateFrom, f.dateTo, parse)
  }

  /** `filteredItems`, recomputed on every render with no shortcut. */
  function FilteredItems(items: seq<Item>, f: Browse.Filters, parse: DateParser): (r: seq<Item>)
    ensures Seqs.IsSubsequence(r, items)
    ensures forall k :: 0 <= k < |r| ==> r[k] in items && Matches(r[k], f, parse)
    ensures forall k :: 0 <= k < |items| && Matches(items[k], f, parse) ==> items[k] in r
  {
    Seqs.FilterIsSubsequence(items, it => Matches(it, f, parse));
    Seqs.Filter(items, it => Matches(it, f, parse))
  }

  /** Every string contains the empty string, so the empty query matches every item. */
  lemma EmptyQueryMatchesEverything(it: Item)
    ensures MatchesSearch(it, "")
  {
    ContainsEmpty(Lower(it.title));
  }

  /** Venue and container play no part in the older filter. */
  lemma VenueAndContainerIgnored(it: Item, venue: Option<string>, container: Option<string>, f: Browse.Filters, parse: DateParser)
    ensures Matches(it.(venue := venue, container := container), f, parse) == Matches(it, f, parse)
  {
  }

  /** An item whose only text is the one-letter title "a". */
  const LetterItem: Item :=
    Item("1", "a", "", Other, Found, "", "2024-01-05", None, None, None, None, None, None,
      Some(true), Some(false), None, None, None, None, None)

  /** The older search does not trim: the query " a" is longer than every text of the item. */
  lemma PaddedQueryMissesHere()
    ensures !MatchesSearch(LetterItem, " a")
  {
  }

  /** The newer page trims the same query to "a" and finds the title. */
  lemma PaddedQueryFoundByNewerPage()
    ensures Browse.MatchesSearch(LetterItem, " a")
  {
    PaddedKey();
    LowerLetter();
    ContainsSelf("a");
  }

  lemma LowerLetter()
    ensures Lower("a") == "a"
  {
    assert Lower("a")[0] == LowerChar('a') == 'a';
  }

  lemma PaddedKey()
    ensures Browse.SearchKey(" a") == "a"
  {
    PaddedLower();
    PaddedTrim();
  }

  lemma PaddedLower()
    ensures Lower(" a") == " a"
  {
    assert Lower(" a")[0] == LowerChar(' ') == ' ';
    assert Lower(" a")[1] == LowerChar('a') == 'a';
  }

  lemma PaddedTrim()
    ensures Trim(" a") == "a"
  {
    assert " a"[1..] == "a";
    assert TrimStart("a") == "a";
    assert TrimStart(" a") == "a";
    assert TrimEnd("a") == "a";
  }

  /** For a query without surrounding white space, whatever the older search finds the newer one finds too. */
  lemma NewerSearchIsWider(it: Item, query: string)
    ensures Trim(query) == query && MatchesSearch(it, query) ==> Browse.MatchesSearch(it, query)
  {
    LowerOfTrim(query);
  }

  lemma NewerDatesAreWider(it: Item, dateFrom: string, dateTo: string, parse: DateParser)
    requires MatchesDate(it, dateFrom, dateTo, parse)
    ensures Browse.MatchesDate(it, dateFrom, dateTo, parse)
  {
  }

  /**
   * The newer page shows everything the older one shows, for a query without
   * surrounding white space: its search, location and date criteria are all wider.
   */
  lemma NewerPageShowsMore(it: Item, f: Browse.Filters, parse: DateParser)
    requires Trim(f.query) == f.query
    requires Matches(it, f, parse)
    ensures Browse.Matches(it, f, parse)
  {
    NewerSearchIsWider(it, f.query);
    NewerDatesAreWider(it, f.dateFrom, f.dateTo, parse);
  }

  /** Non-staff see only `found` items here too, although this page offers them the status filter. */
  lemma NonStaffSeeOnlyFound(table: seq<Item>, role: Role, f: Browse.Filters, parse: DateParser)
    requires role != Some(Staff)
    ensures forall k :: 0 <= k < |FilteredItems(Browse.FetchItems(table, role), f, parse)| ==>
      FilteredItems(Browse.FetchItems(table, role), f, parse)[k].status == Found
  {
    var fetched := Browse.FetchItems(table, role);
    var r := FilteredItems(fetched, f, parse);
    forall k | 0 <= k < |r| ensures r[k].status == Found {
      var j :| 0 <= j < |fetched| && fetched[j] == r[k];
    }
  }
}
