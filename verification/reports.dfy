/**
 * The staff reports page: per-category, per-algorithm and per-verification
 * tallies built by folding rows into an object, the claim statistics and
 * success rate, and the CSV export of the category tally.
 */
module Reports {
  import opened Wrappers
  import opened Text
  import opened Schema
  import Seqs
  import MatchReview

  // ---------------------------------------------------------------- tallies

  /**
   * A tally as `Object.entries` reads it back: each key with its count, keys in the
   * order they were first added to the object.
   */
  type Tally = seq<(string, nat)>

  function KeysOf(t: Tally): seq<string> {
    if t == [] then [] else [t[0].0] + KeysOf(t[1..])
  }

  /** The count a tally holds for `key`: `acc[key] || 0`. */
  function CountIn(t: Tally, key: string): nat {
    if t == [] then 0 else if t[0].0 == key then t[0].1 else CountIn(t[1..], key)
  }

  /** The sum of the counts: `reduce((sum, item) => sum + item.count, 0)`. */
  function Total(t: Tally): nat {
    if t == [] then 0 else t[0].1 + Total(t[1..])
  }

  /** One step of the reducer, `acc[key] = (acc[key] || 0) + 1`: a known key counts one more, a new one is appended. */
  function Bump(t: Tally, key: string): (r: Tally)
    ensures KeysOf(r) == if key in KeysOf(t) then KeysOf(t) else KeysOf(t) + [key]
    ensures forall j :: CountIn(r, j) == CountIn(t, j) + (if j == key then 1 else 0)
    ensures Total(r) == Total(t) + 1
  {
    if t == [] then [(key, 1)]
    else if t[0].0 == key then [(key, t[0].1 + 1)] + t[1..]
    else
      var rest := Bump(t[1..], key);
      assert ([t[0]] + rest)[1..] == rest;
      [t[0]] + rest
  }

  /** The keys of `s` in order of first appearance: the independent account of which entries a tally has. */
  function FirstOccurrences(s: seq<string>): (r: seq<string>)
    ensures Seqs.Distinct(r)
    ensures forall x :: x in r <==> x in s
  {
    if s == [] then []
    else
      var p := FirstOccurrences(s[..|s| - 1]);
      assert s == s[..|s| - 1] + [s[|s| - 1]];
      if s[|s| - 1] in p then p else p + [s[|s| - 1]]
  }

  /** The reducer over all rows, from an empty object. */
  function TallyOf(s: seq<string>): (t: Tally)
    ensures Total(t) == |s|
  {
    if s == [] then [] else Bump(TallyOf(s[..|s| - 1]), s[|s| - 1])
  }

  /**
   * The tally has one entry per distinct key, in first-appearance order; each key's count
   * is its number of occurrences; the counts add up to the number of rows.
   */
  lemma TallyCounts(s: seq<string>)
    ensures KeysOf(TallyOf(s)) == FirstOccurrences(s)
    ensures forall key :: CountIn(TallyOf(s), key) == Seqs.Occurrences(s, key)
    ensures Total(TallyOf(s)) == |s|
  {
    TallyKeys(s);
    TallyOccurrences(s);
  }

  lemma {:induction false} TallyKeys(s: seq<string>)
    ensures KeysOf(TallyOf(s)) == FirstOccurrences(s)
    decreases |s|
  {
    if s != [] {
      TallyKeys(s[..|s| - 1]);
    }
  }

  lemma {:induction false} TallyOccurrences(s: seq<string>)
    ensures forall key :: CountIn(TallyOf(s), key) == Seqs.Occurrences(s, key)
    decreases |s|
  {
    if s != [] {
      var prefix, last := s[..|s| - 1], s[|s| - 1];
      TallyOccurrences(prefix);
      assert s == prefix + [last];
      forall key ensures Seqs.Occurrences(s, key) == Seqs.Occurrences(prefix, key) + (if key == last then 1 else 0) {
        Seqs.OccurrencesAppend(prefix, [last], key);
      }
    }
  }

  /** On keys that are all different, the count looked up for an entry's key is that entry's own count. */
  lemma {:induction false} CountInEntry(t: Tally, k: nat)
    requires k < |t|
    requires Seqs.Distinct(KeysOf(t))
    ensures CountIn(t, t[k].0) == t[k].1
    decreases |t|
  {
    KeysOfIndex(t);
    if k > 0 {
      assert t[0].0 != t[k].0 by {
        assert KeysOf(t)[0] != KeysOf(t)[k];
      }
      KeysOfIndex(t[1..]);
      assert Seqs.Distinct(KeysOf(t[1..])) by {
        assert KeysOf(t) == [t[0].0] + KeysOf(t[1..]);
        forall i, j | 0 <= i < j < |KeysOf(t[1..])| ensures KeysOf(t[1..])[i] != KeysOf(t[1..])[j] {
          assert KeysOf(t[1..])[i] == KeysOf(t)[i + 1] && KeysOf(t[1..])[j] == KeysOf(t)[j + 1];
        }
      }
      CountInEntry(t[1..], k - 1);
    }
  }

  lemma {:induction false} KeysOfIndex(t: Tally)
    ensures |KeysOf(t)| == |t|
    ensures forall k :: 0 <= k < |t| ==> KeysOf(t)[k] == t[k].0
    decreases |t|
  {
    if t != [] {
      KeysOfIndex(t[1..]);
    }
  }

  /** Every entry of a tally counts its key's occurrences, so no entry is ever zero. */
  lemma TallyEntries(s: seq<string>)
    ensures forall k :: 0 <= k < |TallyOf(s)| ==>
      TallyOf(s)[k].1 == Seqs.Occurrences(s, TallyOf(s)[k].0) && TallyOf(s)[k].1 >= 1
  {
    var t := TallyOf(s);
    TallyCounts(s);
    KeysOfIndex(t);
    forall k | 0 <= k < |t| ensures t[k].1 == Seqs.Occurrences(s, t[k].0) && t[k].1 >= 1 {
      CountInEntry(t, k);
      assert t[k].0 in KeysOf(t);
    }
  }

  /** The key column of the rows, in row order. */
  function Column<T>(rows: seq<T>, key: T -> string): (r: seq<string>)
    ensures |r| == |rows|
  {
    if rows == [] then [] else [key(rows[0])] + Column(rows[1..], key)
  }

  /** A key occurs in the column once per row that selects it. */
  lemma {:induction false} ColumnOccurrences<T>(rows: seq<T>, key: T -> string, x: string, selects: T -> bool)
    requires forall r :: selects(r) == (key(r) == x)
    ensures Seqs.Occurrences(Column(rows, key), x) == Seqs.CountWhere(rows, selects)
    decreases |rows|
  {
    if rows != [] {
      ColumnOccurrences(rows[1..], key, x, selects);
      assert Column(rows, key)[1..] == Column(rows[1..], key);
    }
  }

  // ---------------------------------------------------------------- categories

  /** The items the category query returns: `.eq("is_active", true)`. */
  predicate IsActive(it: Item) {
    it.isActive == Some(true)
  }

  function CategoryKey(it: Item): string {
    CategoryName(it.category)
  }

  /** The category chart's data: the active items tallied by category name. */
  function CategoryCounts(items: seq<Item>): (t: Tally)
    ensures Total(t) == |Seqs.Filter(items, IsActive)|
  {
    TallyOf(Column(Seqs.Filter(items, IsActive), CategoryKey))
  }

  /** Each category's bar counts exactly the active items of that category. */
  lemma CategoryCountIsActiveItemsOfIt(items: seq<Item>, c: ItemCategory)
    ensures CountIn(CategoryCounts(items), CategoryName(c))
      == Seqs.CountWhere(items, (it: Item) => IsActive(it) && it.category == c)
  {
    var active := Seqs.Filter(items, IsActive);
    TallyCounts(Column(active, CategoryKey));
    CategoryNamesDiffer();
    var ofC := (it: Item) => it.category == c;
    ColumnOccurrences(active, CategoryKey, CategoryName(c), ofC);
    Seqs.FilterCompose(items, IsActive, ofC, (it: Item) => IsActive(it) && it.category == c);
  }

  /** A category has a bar exactly when some active item has it. */
  lemma CategoryShownIffPresent(items: seq<Item>, c: ItemCategory)
    ensures CategoryName(c) in KeysOf(CategoryCounts(items))
      <==> exists k :: 0 <= k < |items| && IsActive(items[k]) && items[k].category == c
  {
    var column := Column(Seqs.Filter(items, IsActive), CategoryKey);
    TallyCounts(column);
    CategoryCountIsActiveItemsOfIt(items, c);
    Seqs.CountWherePositive(items, (it: Item) => IsActive(it) && it.category == c);
  }

  /** The Total Items card is the number of active items. */
  lemma TotalItemsCountsActiveItems(items: seq<Item>)
    ensures Total(CategoryCounts(items)) == Seqs.CountWhere(items, IsActive)
  {
    TallyCounts(Column(Seqs.Filter(items, IsActive), CategoryKey));
  }

  /** Different categories have different names, so their bars never merge. */
  lemma CategoryNamesDiffer()
    ensures forall a: ItemCategory, b: ItemCategory :: CategoryName(a) == CategoryName(b) ==> a == b
  {
    forall a: ItemCategory, b: ItemCategory | CategoryName(a) == CategoryName(b) ensures a == b {
      assert |CategoryName(a)| == |CategoryName(b)| && CategoryName(a)[0] == CategoryName(b)[0];
    }
  }

  // ---------------------------------------------------------------- claims

  /** The claim summary cards. */
  datatype ClaimStats = ClaimStats(total: nat, approved: nat, pending: nat, rejected: nat)

  predicate IsApproved(c: Claim) { c.status == Some("approved") }
  predicate IsPending(c: Claim) { c.status == Some("pending") }
  predicate IsRejected(c: Claim) { c.status == Some("rejected") }

  /** The claim reducer: every row counts toward the total, and toward at most one status. */
  function ClaimStatsOf(claims: seq<Claim>): (s: ClaimStats)
    ensures s.total == |claims|
    ensures s.approved == Seqs.CountWhere(claims, IsApproved)
    ensures s.pending == Seqs.CountWhere(claims, IsPending)
    ensures s.rejected == Seqs.CountWhere(claims, IsRejected)
    ensures s.approved + s.pending + s.rejected <= s.total
  {
    if claims == [] then ClaimStats(0, 0, 0, 0)
    else
      var rest := ClaimStatsOf(claims[1..]);
      var c := claims[0];
      ClaimStats(
        rest.total + 1,
        rest.approved + (if IsApproved(c) then 1 else 0),
        rest.pending + (if IsPending(c) then 1 else 0),
        rest.rejected + (if IsRejected(c) then 1 else 0))
  }

  /** A claim whose status is none of the three, or missing, counts only toward the total. */
  lemma UnknownStatusCountsOnlyInTotal(claims: seq<Claim>, c: Claim)
    requires !IsApproved(c) && !IsPending(c) && !IsRejected(c)
    ensures ClaimStatsOf([c] + claims) == ClaimStatsOf(claims).(total := |claims| + 1)
  {
    assert ([c] + claims)[1..] == claims;
  }

  /** The success rate before formatting: the percentage of claims approved, or 0 without claims. */
  function SuccessRate(claims: seq<Claim>): (r: real)
    ensures 0.0 <= r <= 100.0
    ensures r == 0.0 <==> Seqs.CountWhere(claims, IsApproved) == 0
    ensures r == 100.0 <==> claims != [] && Seqs.CountWhere(claims, IsApproved) == |claims|
  {
    var s := ClaimStatsOf(claims);
    if s.total > 0 then
      var a, t := s.approved as real, s.total as real;
      RatioBounds(a, t);
      (a / t) * 100.0
    else 0.0
  }

  lemma RatioBounds(a: real, t: real)
    requires 0.0 <= a <= t && t > 0.0
    ensures 0.0 <= a / t <= 1.0
    ensures a / t == 0.0 <==> a == 0.0
    ensures a / t == 1.0 <==> a == t
  {
    assert a / t * t == a;
  }

  // ---------------------------------------------------------------- matches and verification

  function AlgorithmKey(m: Match): string {
    MatchReview.AlgorithmLabel(m.algorithm)
  }

  /** The algorithm chart: every match, counted under its algorithm or under "manual" when it has none. */
  function AlgorithmCounts(matches: seq<Match>): (t: Tally)
    ensures Total(t) == |matches|
  {
    TallyOf(Column(matches, AlgorithmKey))
  }

  /** The "manual" entry gathers the matches without an algorithm and those labelled manual; the counts cover every match. */
  lemma ManualGathersMissingAlgorithms(matches: seq<Match>)
    ensures CountIn(AlgorithmCounts(matches), "manual")
      == Seqs.CountWhere(matches, (m: Match) => !Truthy(m.algorithm) || m.algorithm == Some("manual"))
    ensures Total(AlgorithmCounts(matches)) == |matches|
    ensures forall k :: 0 <= k < |AlgorithmCounts(matches)| ==> AlgorithmCounts(matches)[k].0 != ""
  {
    var column := Column(matches, AlgorithmKey);
    TallyCounts(column);
    ColumnOccurrences(matches, AlgorithmKey, "manual", (m: Match) => !Truthy(m.algorithm) || m.algorithm == Some("manual"));
    var t := AlgorithmCounts(matches);
    KeysOfIndex(t);
    forall k | 0 <= k < |t| ensures t[k].0 != "" {
      assert t[k].0 in KeysOf(t);
      ColumnKeysNonEmpty(matches);
    }
  }

  lemma {:induction false} ColumnKeysNonEmpty(matches: seq<Match>)
    ensures "" !in Column(matches, AlgorithmKey)
    decreases |matches|
  {
    if matches != [] {
      ColumnKeysNonEmpty(matches[1..]);
    }
  }

  function VerificationKey(c: Claim): string {
    OrFallback(c.verificationStatus.GetOr(""), "pending")
  }

  /** The verification chart before labelling: every claim under its status, or "pending" when it has none. */
  function VerificationCounts(claims: seq<Claim>): (t: Tally)
    ensures Total(t) == |claims|
  {
    TallyOf(Column(claims, VerificationKey))
  }

  /** The chart's labels: each status with its first letter upper-cased. */
  function Labelled(t: Tally): (r: Tally)
    ensures |r| == |t|
    ensures forall k :: 0 <= k < |t| ==> r[k] == (Capitalize(t[k].0), t[k].1)
  {
    seq(|t|, k requires 0 <= k < |t| => (Capitalize(t[k].0), t[k].1))
  }

  function VerificationStats(claims: seq<Claim>): (t: Tally)
    ensures Total(t) == |claims|
  {
    LabellingKeepsTotal(VerificationCounts(claims));
    Labelled(VerificationCounts(claims))
  }

  /** Claims without a verification status are counted with the pending ones. */
  lemma PendingGathersMissingStatuses(claims: seq<Claim>)
    ensures CountIn(VerificationCounts(claims), "pending")
      == Seqs.CountWhere(claims, (c: Claim) => !Truthy(c.verificationStatus) || c.verificationStatus == Some("pending"))
  {
    TallyCounts(Column(claims, VerificationKey));
    ColumnOccurrences(claims, VerificationKey, "pending", (c: Claim) => !Truthy(c.verificationStatus) || c.verificationStatus == Some("pending"));
  }

  /** The verification chart accounts for every claim, each label its status capitalised. */
  lemma VerificationChartCoversEveryClaim(claims: seq<Claim>)
    ensures Total(VerificationStats(claims)) == |claims|
    ensures forall k :: 0 <= k < |VerificationStats(claims)| ==>
      VerificationStats(claims)[k].0 == Capitalize(VerificationCounts(claims)[k].0)
  {
    TallyCounts(Column(claims, VerificationKey));
    LabellingKeepsTotal(VerificationCounts(claims));
  }

  /** Labelling keeps the counts, so the chart still accounts for every claim. */
  lemma {:induction false} LabellingKeepsTotal(t: Tally)
    ensures Total(Labelled(t)) == Total(t)
    decreases |t|
  {
    if t != [] {
      LabellingKeepsTotal(t[1..]);
      assert Labelled(t)[1..] == Labelled(t[1..]);
    }
  }

  // ---------------------------------------------------------------- export

  const CsvHeader: string := "Category" + "," + "Count"

  function CsvLine(e: (string, nat)): string {
    e.0 + "," + NatToString(e.1)
  }

  /** The export's lines: the header, then one `category,count` line per entry. */
  function CsvLines(t: Tally): (r: seq<string>)
    ensures |r| == |t| + 1
    ensures r[0] == CsvHeader
    ensures forall k :: 0 <= k < |t| ==> r[k + 1] == CsvLine(t[k])
  {
    [CsvHeader] + seq(|t|, k requires 0 <= k < |t| => CsvLine(t[k]))
  }

  /** `exportToCSV`'s content: the lines joined by newlines. */
  function Csv(t: Tally): (text: string)
    ensures |text| >= |CsvHeader| && text[..|CsvHeader|] == CsvHeader
    ensures t == [] ==> text == CsvHeader
  {
    Join(CsvLines(t), "\n")
  }

  /** A key a CSV line can carry without breaking the line or the field. */
  predicate CsvSafe(key: string) {
    '\n' !in key && ',' !in key
  }

  /** The export reads back: its lines are the header and the entries, each line the key and its count. */
  lemma CsvRoundTrip(t: Tally)
    requires forall k :: 0 <= k < |t| ==> CsvSafe(t[k].0)
    ensures Split(Csv(t), '\n') == CsvLines(t)
    ensures forall k :: 0 <= k < |t| ==> Split(Split(Csv(t), '\n')[k + 1], ',') == [t[k].0, NatToString(t[k].1)]
    ensures forall k :: 0 <= k < |t| ==> ParseNat(Split(Split(Csv(t), '\n')[k + 1], ',')[1]) == t[k].1
  {
    var lines := CsvLines(t);
    assert '\n' !in CsvHeader;
    forall k | 0 <= k < |lines| ensures '\n' !in lines[k] {
      if k > 0 {
        DigitsHaveNoSeparator(NatToString(t[k - 1].1));
      }
    }
    SplitJoin(lines, '\n');
    forall k | 0 <= k < |t|
      ensures Split(lines[k + 1], ',') == [t[k].0, NatToString(t[k].1)]
      ensures ParseNat(NatToString(t[k].1)) == t[k].1
    {
      DigitsHaveNoSeparator(NatToString(t[k].1));
      SplitAfterPiece(t[k].0, ',', NatToString(t[k].1));
      SplitNoSeparator(NatToString(t[k].1), ',');
      ParseNatToString(t[k].1);
    }
  }

  lemma DigitsHaveNoSeparator(s: string)
    requires forall k :: 0 <= k < |s| ==> IsDigit(s[k])
    ensures '\n' !in s && ',' !in s
  {
    forall k | 0 <= k < |s| ensures s[k] != '\n' && s[k] != ',' {
      assert IsDigit(s[k]);
    }
  }

  /** The category export always reads back: category names carry no comma or newline. */
  lemma CategoryCsvRoundTrip(items: seq<Item>)
    ensures Split(Csv(CategoryCounts(items)), '\n') == CsvLines(CategoryCounts(items))
    ensures |Split(Csv(CategoryCounts(items)), '\n')| == |KeysOf(CategoryCounts(items))| + 1
  {
    var column := Column(Seqs.Filter(items, IsActive), CategoryKey);
    var t := CategoryCounts(items);
    TallyCounts(column);
    KeysOfIndex(t);
    CategoryColumnSafe(Seqs.Filter(items, IsActive));
    forall k | 0 <= k < |t| ensures CsvSafe(t[k].0) {
      assert t[k].0 in KeysOf(t);
    }
    CsvRoundTrip(t);
  }

  lemma {:induction false} CategoryColumnSafe(items: seq<Item>)
    ensures forall x :: x in Column(items, CategoryKey) ==> CsvSafe(x)
    decreases |items|
  {
    if items != [] {
      CategoryColumnSafe(items[1..]);
      assert CsvSafe(CategoryKey(items[0])) by {
        match items[0].category
        case Electronics => case Clothing => case Accessories => case Books =>
        case Keys => case Bags => case Documents => case Sports => case Other =>
      }
    }
  }
}
