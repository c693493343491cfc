/**
 * The staff dashboard: one search box over the item and claim tables, the
 * summary counts, the status badge and location cell, and the status menu.
 */
module Dashboard {
  import opened Wrappers
  import opened Text
  import opened Dates
  import opened Schema
  import opened Search
  import Seqs

  // ---------------------------------------------------------------- items

  /** An item row matches when its title, category label or location contains the lower-cased term. */
  predicate ItemMatches(it: Item, term: string) {
    var key := Lower(term);
    Contains(Lower(it.title), key) || Contains(Lower(CategoryName(it.category)), key) || Contains(Lower(it.location), key)
  }

  /** The items tab after the search. */
  function FilteredItems(items: seq<Item>, term: string): (r: seq<Item>)
    ensures Seqs.IsSubsequence(r, items)
    ensures forall k :: 0 <= k < |r| ==> r[k] in items && ItemMatches(r[k], term)
    ensures forall k :: 0 <= k < |items| && ItemMatches(items[k], term) ==> items[k] in r
  {
    Seqs.FilterIsSubsequence(items, it => ItemMatches(it, term));
    Seqs.Filter(items, it => ItemMatches(it, term))
  }

  /** The empty search keeps every item, in order. */
  lemma EmptyTermKeepsAllItems(items: seq<Item>)
    ensures FilteredItems(items, "") == items
  {
    forall k | 0 <= k < |items| ensures ItemMatches(items[k], "") {
      ContainsEmpty(Lower(items[k].title));
    }
    Seqs.FilterAll(items, it => ItemMatches(it, ""));
  }

  // ---------------------------------------------------------------- claims

  /** A claim row as the dashboard fetches it, joined with its item's title when the item exists. */
  datatype ClaimRow = ClaimRow(claim: Claim, itemTitle: Option<string>)

  /** A claim matches on its item's title, reference number or email; absent fields never match. */
  predicate ClaimMatches(c: ClaimRow, term: string) {
    var key := Lower(term);
    OptionalContains(c.itemTitle, key) || OptionalContains(c.claim.referenceNumber, key) || OptionalContains(c.claim.email, key)
  }

  /** The claims tab after the search. */
  function FilteredClaims(claims: seq<ClaimRow>, term: string): (r: seq<ClaimRow>)
    ensures Seqs.IsSubsequence(r, claims)
    ensures forall k :: 0 <= k < |r| ==> r[k] in claims && ClaimMatches(r[k], term)
    ensures forall k :: 0 <= k < |claims| && ClaimMatches(claims[k], term) ==> claims[k] in r
  {
    Seqs.FilterIsSubsequence(claims, c => ClaimMatches(c, term));
    Seqs.Filter(claims, c => ClaimMatches(c, term))
  }

  /** Some field the claim search looks at is present. */
  predicate Searchable(c: ClaimRow) {
    c.itemTitle.Some? || c.claim.referenceNumber.Some? || c.claim.email.Some?
  }

  /**
   * Even the empty search drops a claim with no item title, reference number or
   * email: the empty term keeps exactly the searchable claims.
   */
  lemma EmptyTermKeepsSearchableClaims(claims: seq<ClaimRow>)
    ensures FilteredClaims(claims, "") == Seqs.Filter(claims, Searchable)
  {
    forall k | 0 <= k < |claims| ensures ClaimMatches(claims[k], "") == Searchable(claims[k]) {
      var c := claims[k];
      if c.itemTitle.Some? { EmptyKeyMatchesPresent(c.itemTitle); }
      if c.claim.referenceNumber.Some? { EmptyKeyMatchesPresent(c.claim.referenceNumber); }
      if c.claim.email.Some? { EmptyKeyMatchesPresent(c.claim.email); }
    }
    Seqs.FilterCongruent(claims, c => ClaimMatches(c, ""), Searchable);
  }

  /** A claim with none of the searched fields is never listed, whatever the term. */
  lemma UnsearchableClaimNeverListed(claims: seq<ClaimRow>, term: string, c: ClaimRow)
    requires !Searchable(c)
    ensures c !in FilteredClaims(claims, term)
  {
  }

  // ---------------------------------------------------------------- counts

  predicate IsPending(c: ClaimRow) {
    c.claim.status == Some("pending")
  }

  predicate NotPending(c: ClaimRow) {
    !IsPending(c)
  }

  /** The "Pending Claims" card. */
  function PendingClaims(claims: seq<ClaimRow>): (n: nat)
    ensures n <= |claims|
    ensures n == 0 <==> forall k :: 0 <= k < |claims| ==> !IsPending(claims[k])
  {
    var r := Seqs.Filter(claims, IsPending);
    assert r != [] ==> r[0] in claims;
    |r|
  }

  /** Pending and other claims together make up the whole claim list. */
  lemma PendingAndOthersPartitionClaims(claims: seq<ClaimRow>)
    ensures PendingClaims(claims) + Seqs.CountWhere(claims, NotPending) == |claims|
  {
    Seqs.CountPartition(claims, IsPending, NotPending);
  }

  /** `new Date(created_at)`; a null timestamp is the epoch, as `new Date(null)` is. */
  function CreatedAt(it: Item, parse: DateParser): Instant {
    match it.createdAt
    case Some(s) => parse(s)
    case None => Valid(0)
  }

  /** The instant seven days before `now` (daylight-saving shifts not modelled). */
  function WeekBefore(now: int): int {
    now - 7 * DayMs
  }

  predicate CreatedThisWeek(it: Item, now: int, parse: DateParser) {
    Before(Valid(WeekBefore(now)), CreatedAt(it, parse))
  }

  /** The "Items This Week" card: items created strictly after the instant a week ago. */
  function ItemsThisWeek(items: seq<Item>, now: int, parse: DateParser): (n: nat)
    ensures n <= |items|
  {
    Seqs.CountWhere(items, it => CreatedThisWeek(it, now, parse))
  }

  /** An item created exactly a week ago is not counted; one created a millisecond later is. */
  lemma WeekBoundIsExclusive(it: Item, now: int, parse: DateParser)
    ensures CreatedAt(it, parse) == Valid(WeekBefore(now)) ==> !CreatedThisWeek(it, now, parse)
    ensures CreatedAt(it, parse) == Valid(WeekBefore(now) + 1) ==> CreatedThisWeek(it, now, parse)
  {
  }

  /** A later `now` counts no more items. */
  lemma {:induction false} ItemsThisWeekShrinksOverTime(items: seq<Item>, now: int, later: int, parse: DateParser)
    requires now <= later
    ensures ItemsThisWeek(items, later, parse) <= ItemsThisWeek(items, now, parse)
    decreases |items|
  {
    if items != [] {
      ItemsThisWeekShrinksOverTime(items[1..], now, later, parse);
    }
  }

  // ---------------------------------------------------------------- rows

  datatype BadgeVariant = Default | Destructive | Secondary | Outline

  /** The status badge on the items tab. */
  function StatusBadge(s: ItemStatus): (b: BadgeVariant)
    ensures b == Default <==> s == Found
    ensures b == Destructive <==> s == Lost
    ensures b == Secondary <==> s.Claimed? || s.Returned?
  {
    if s == Found then Default else if s == Lost then Destructive else Secondary
  }

  /** The location cell: the venue when it is set, otherwise the location. */
  function LocationCell(it: Item): (t: string)
    ensures Truthy(it.venue) ==> t == it.venue.value
    ensures !Truthy(it.venue) ==> t == it.location
  {
    if Truthy(it.venue) then it.venue.value else it.location
  }

  /** The `value` of each option of a row's status menu, in display order. */
  const StatusMenuValues: seq<string> := ["found", "lost", "claimed", "returned"]

  /**
   * Picking `value` in the status menu of row `k`. The menu shows the row's own status, so
   * picking that option fires no change; any other option calls `updateItemStatus` with the
   * row's id and the option's status.
   */
  function PickStatus(table: seq<Item>, k: nat, value: string): (r: seq<Item>)
    requires k < |table| && value in StatusMenuValues
    ensures |r| == |table|
    ensures value == StatusName(table[k].status) ==> r == table
  {
    if value == StatusName(table[k].status) then table
    else match ParseStatus(value)
      case Some(s) => UpdateItemStatus(table, table[k].id, s)
      case None => table
  }

  /**
   * From whatever status a row shows, its menu moves it to any status: afterwards the row has
   * the picked status, rows with other ids are unchanged, and no row changes anything but its
   * status.
   */
  lemma StatusMenuOffersEveryStatus(table: seq<Item>, k: nat, to: ItemStatus)
    requires k < |table|
    ensures StatusName(to) in StatusMenuValues
    ensures PickStatus(table, k, StatusName(to))[k].status == to
    ensures forall j :: 0 <= j < |table| && table[j].id != table[k].id ==> PickStatus(table, k, StatusName(to))[j] == table[j]
    ensures forall j :: 0 <= j < |table| ==> PickStatus(table, k, StatusName(to))[j].(status := table[j].status) == table[j]
  {
    match to
    case Found => assert StatusMenuValues[0] == StatusName(to);
    case Lost => assert StatusMenuValues[1] == StatusName(to);
    case Claimed => assert StatusMenuValues[2] == StatusName(to);
    case Returned => assert StatusMenuValues[3] == StatusName(to);
    EnumLabelsRoundTrip();
  }

  /** `updateItemStatus`: the rows with the id get the new status and nothing else changes. */
  function UpdateItemStatus(table: seq<Item>, id: string, s: ItemStatus): (r: seq<Item>)
    ensures |r| == |table|
    ensures forall k :: 0 <= k < |table| ==> r[k].status == (if table[k].id == id then s else table[k].status)
    ensures forall k :: 0 <= k < |table| ==> r[k].(status := table[k].status) == table[k]
  {
    seq(|table|, k requires 0 <= k < |table| => if table[k].id == id then table[k].(status := s) else table[k])
  }

  /** `updateClaimStatus`: the rows with the id get the new status text and nothing else changes. */
  function UpdateClaimStatus(claims: seq<Claim>, id: string, s: string): (r: seq<Claim>)
    ensures |r| == |claims|
    ensures forall k :: 0 <= k < |claims| ==> r[k].status == (if claims[k].id == id then Some(s) else claims[k].status)
    ensures forall k :: 0 <= k < |claims| ==> r[k].(status := claims[k].status) == claims[k]
  {
    seq(|claims|, k requires 0 <= k < |claims| => if claims[k].id == id then claims[k].(status := Some(s)) else claims[k])
  }

  /** Setting a status and then setting the old one back restores the table. */
  lemma UpdateItemStatusUndo(table: seq<Item>, id: string, s: ItemStatus, previous: ItemStatus)
    requires forall k :: 0 <= k < |table| && table[k].id == id ==> table[k].status == previous
    ensures UpdateItemStatus(UpdateItemStatus(table, id, s), id, previous) == table
  {
  }
}
