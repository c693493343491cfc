/**
 * Storage management: which stored items have expired, the search over the
 * storage table, the summary counts, disposing of an item and recording where
 * an item is kept.
 */
module Storage {
  import opened Wrappers
  import opened Text
  import opened Dates
  import opened Schema
  import opened Search
  import Seqs

  /** The page's fetch: the active rows (ordered by the database by storage date). */
  function FetchActive(table: seq<Item>): (r: seq<Item>)
    ensures Seqs.IsSubsequence(r, table)
    ensures forall k :: 0 <= k < |r| ==> r[k].isActive == Some(true)
    ensures forall k :: 0 <= k < |table| && table[k].isActive == Some(true) ==> table[k] in r
  {
    Seqs.FilterIsSubsequence(table, (it: Item) => it.isActive == Some(true));
    Seqs.Filter(table, (it: Item) => it.isActive == Some(true))
  }

  /** `isExpired`: a missing or empty expiry never expires; otherwise the expiry lies strictly before `now`. */
  function IsExpired(expiry: Option<string>, now: Instant, parse: DateParser): (expired: bool)
    ensures expired ==> Truthy(expiry) && parse(expiry.value).Valid? && now.Valid?
    ensures expired ==> parse(expiry.value).ms < now.ms
  {
    Truthy(expiry) && Before(parse(expiry.value), now)
  }

  /** An item with no expiry date never expires, and one expiring exactly now has not yet expired. */
  lemma ExpiryIsStrict(expiry: Option<string>, now: Instant, parse: DateParser)
    ensures !Truthy(expiry) ==> !IsExpired(expiry, now, parse)
    ensures Truthy(expiry) && parse(expiry.value) == now ==> !IsExpired(expiry, now, parse)
    ensures Truthy(expiry) && now.Valid? && parse(expiry.value) == Valid(now.ms - 1) ==> IsExpired(expiry, now, parse)
  {
  }

  /** Once expired, an item stays expired as time moves on. */
  lemma ExpiredStaysExpired(expiry: Option<string>, now: int, later: int, parse: DateParser)
    requires now <= later && IsExpired(expiry, Valid(now), parse)
    ensures IsExpired(expiry, Valid(later), parse)
  {
  }

  /** The search: title, category label, or storage location when one is set. */
  predicate ItemMatches(it: Item, term: string) {
    var key := Lower(term);
    Contains(Lower(it.title), key) || Contains(Lower(CategoryName(it.category)), key) || FieldContains(it.storageLocation, key)
  }

  /** The table after the search; a listed row without a storage location matched on its title or category. */
  function FilteredItems(items: seq<Item>, term: string): (r: seq<Item>)
    ensures Seqs.IsSubsequence(r, items)
    ensures forall k :: 0 <= k < |r| ==> r[k] in items && ItemMatches(r[k], term)
    ensures forall k :: 0 <= k < |items| && ItemMatches(items[k], term) ==> items[k] in r
    ensures forall k :: 0 <= k < |r| && !Truthy(r[k].storageLocation) ==>
      Contains(Lower(r[k].title), Lower(term)) || Contains(Lower(CategoryName(r[k].category)), Lower(term))
  {
    Seqs.FilterIsSubsequence(items, it => ItemMatches(it, term));
    Seqs.Filter(items, it => ItemMatches(it, term))
  }

  /** An item with no storage location is found only through its title or category. */
  lemma UnstoredFoundByTitleOrCategory(it: Item, term: string)
    requires !Truthy(it.storageLocation) && ItemMatches(it, term)
    ensures Contains(Lower(it.title), Lower(term)) || Contains(Lower(CategoryName(it.category)), Lower(term))
  {
  }

  predicate InStorage(it: Item) {
    Truthy(it.storageLocation)
  }

  predicate NoStorageInfo(it: Item) {
    !Truthy(it.storageLocation)
  }

  /** The three cards: items in storage, expired items, items without storage information. */
  datatype Counts = Counts(inStorage: nat, expired: nat, noStorageInfo: nat)

  function StorageCounts(items: seq<Item>, now: Instant, parse: DateParser): (c: Counts)
    ensures c.inStorage + c.noStorageInfo == |items|
    ensures c.expired <= |items|
    ensures c.inStorage > 0 <==> exists k :: 0 <= k < |items| && InStorage(items[k])
    ensures c.expired > 0 <==> exists k :: 0 <= k < |items| && IsExpired(items[k].expiryDate, now, parse)
  {
    Seqs.CountPartition(items, InStorage, NoStorageInfo);
    Seqs.CountWherePositive(items, InStorage);
    Seqs.CountWherePositive(items, (it: Item) => IsExpired(it.expiryDate, now, parse));
    Counts(
      Seqs.CountWhere(items, InStorage),
      Seqs.CountWhere(items, (it: Item) => IsExpired(it.expiryDate, now, parse)),
      Seqs.CountWhere(items, NoStorageInfo))
  }

  /** The Dispose button appears only on an expired row, which therefore has an expiry date. */
  predicate DisposeOffered(it: Item, now: Instant, parse: DateParser) {
    IsExpired(it.expiryDate, now, parse)
  }

  lemma DisposeNeedsExpiry(it: Item, now: Instant, parse: DateParser)
    requires DisposeOffered(it, now, parse)
    ensures Truthy(it.expiryDate) && now.Valid?
  {
  }

  /** `disposeItem` on one row: when confirmed, the row becomes `returned` and inactive; nothing else changes. */
  function Dispose(it: Item, confirmed: bool): (r: Item)
    ensures !confirmed ==> r == it
    ensures confirmed ==> r.status == Returned && r.isActive == Some(false)
    ensures r.(status := it.status, isActive := it.isActive) == it
  {
    if confirmed then it.(status := Returned, isActive := Some(false)) else it
  }

  /** The update applied to the table: every row with the id is disposed. */
  function DisposeInTable(table: seq<Item>, id: string, confirmed: bool): (r: seq<Item>)
    ensures |r| == |table|
    ensures forall k :: 0 <= k < |table| ==> r[k] == if table[k].id == id then Dispose(table[k], confirmed) else table[k]
  {
    seq(|table|, k requires 0 <= k < |table| => if table[k].id == id then Dispose(table[k], confirmed) else table[k])
  }

  /** After a confirmed disposal the item is gone from the next fetch, and every other active row is still there. */
  lemma DisposedItemLeavesTheList(table: seq<Item>, id: string)
    ensures forall k :: 0 <= k < |FetchActive(DisposeInTable(table, id, true))| ==> FetchActive(DisposeInTable(table, id, true))[k].id != id
    ensures forall k :: 0 <= k < |table| && table[k].id != id && table[k].isActive == Some(true) ==>
      table[k] in FetchActive(DisposeInTable(table, id, true))
  {
    var t := DisposeInTable(table, id, true);
    var r := FetchActive(t);
    forall k | 0 <= k < |r| ensures r[k].id != id {
      var j :| 0 <= j < |t| && t[j] == r[k];
    }
    forall k | 0 <= k < |table| && table[k].id != id && table[k].isActive == Some(true)
      ensures table[k] in r
    {
      assert t[k] == table[k];
    }
  }

  /**
   * The Update button: two prompts, for the location and the expiry date. A cancelled
   * (`None`) or empty answer abandons the update; otherwise the row records the location,
   * the current time as storage date and the expiry.
   */
  function UpdateStorage(it: Item, location: Option<string>, expiry: Option<string>, nowIso: string): (r: Option<Item>)
    ensures r.Some? <==> Truthy(location) && Truthy(expiry)
    ensures r.Some? ==> r.value.storageLocation == location && r.value.expiryDate == expiry && r.value.storageDate == Some(nowIso)
    ensures r.Some? ==> r.value.(storageLocation := it.storageLocation, storageDate := it.storageDate, expiryDate := it.expiryDate) == it
  {
    if !Truthy(location) || !Truthy(expiry) then None
    else Some(it.(storageLocation := location, storageDate := Some(nowIso), expiryDate := expiry))
  }

  /** After an update the row counts as in storage, and it is expired exactly when the new expiry lies before now. */
  lemma UpdatedRowIsStored(it: Item, location: Option<string>, expiry: Option<string>, nowIso: string, now: Instant, parse: DateParser)
    requires UpdateStorage(it, location, expiry, nowIso).Some?
    ensures InStorage(UpdateStorage(it, location, expiry, nowIso).value)
    ensures IsExpired(UpdateStorage(it, location, expiry, nowIso).value.expiryDate, now, parse) <==> Before(parse(expiry.value), now)
  {
  }
}
