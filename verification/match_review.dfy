/**
 * The staff list of suggested lost/found matches: pending matches, highest
 * score first, each approved or rejected with optional review notes.
 */
module MatchReview {
  import opened Wrappers
  import opened Schema
  import Seqs

  // ---------------------------------------------------------------- listing

  /** Scores never increase along the list. */
  ghost predicate ByScoreDescending(s: seq<Match>) {
    forall i, j :: 0 <= i < j < |s| ==> s[i].score >= s[j].score
  }

  /** A sorted list stays sorted when an element scoring at least its head is put in front. */
  lemma ConsByScore(x: Match, t: seq<Match>)
    requires ByScoreDescending(t)
    requires t != [] ==> x.score >= t[0].score
    ensures ByScoreDescending([x] + t)
  {
    var r := [x] + t;
    forall i, j | 0 <= i < j < |r| ensures r[i].score >= r[j].score {
      if i == 0 && j > 1 {
        assert r[j] == t[j - 1] && t[0].score >= t[j - 1].score;
      }
    }
  }

  /** Places `m` before the first element scoring no more than it. */
  function InsertByScore(m: Match, s: seq<Match>): (r: seq<Match>)
    requires ByScoreDescending(s)
    ensures ByScoreDescending(r)
    ensures multiset(r) == multiset(s) + multiset{m}
    ensures |r| == |s| + 1
    ensures r[0] == m || (s != [] && r[0] == s[0])
    decreases |s|
  {
    if s == [] || m.score >= s[0].score then
      ConsByScore(m, s);
      [m] + s
    else
      var rest := InsertByScore(m, s[1..]);
      assert s == [s[0]] + s[1..];
      assert rest[0].score <= s[0].score by {
        if rest[0] != m { assert rest[0] == s[1]; }
      }
      ConsByScore(s[0], rest);
      [s[0]] + rest
  }

  /** The database's `.order("match_score", descending)`, as an insertion sort. */
  function SortByScore(s: seq<Match>): (r: seq<Match>)
    ensures ByScoreDescending(r)
    ensures multiset(r) == multiset(s)
    decreases |s|
  {
    if s == [] then []
    else
      assert s == [s[0]] + s[1..];
      InsertByScore(s[0], SortByScore(s[1..]))
  }

  predicate IsPending(m: Match) {
    m.status == "pending"
  }

  /** The listed matches: exactly the pending matches of the table, highest score first. */
  function PendingMatches(table: seq<Match>): (r: seq<Match>)
    ensures ByScoreDescending(r)
    ensures multiset(r) == multiset(Seqs.Filter(table, IsPending))
    ensures forall m :: m in r <==> m in table && IsPending(m)
  {
    var pending := Seqs.Filter(table, IsPending);
    var r := SortByScore(pending);
    assert forall m :: m in r <==> m in pending by {
      forall m ensures m in r <==> m in pending {
        assert m in r <==> m in multiset(r);
        assert m in pending <==> m in multiset(pending);
      }
    }
    r
  }

  /** The algorithm badge: the stored algorithm, or "manual" when there is none. */
  function AlgorithmLabel(algorithm: Option<string>): (shown: string)
    ensures Truthy(algorithm) ==> shown == algorithm.value
    ensures !Truthy(algorithm) ==> shown == "manual"
  {
    OrFallback(algorithm.GetOr(""), "manual")
  }

  // ---------------------------------------------------------------- review

  datatype Decision = Approved | Rejected

  function DecisionName(d: Decision): string {
    match d
    case Approved => "approved"
    case Rejected => "rejected"
  }

  /** Draft notes keyed by match id; the text box shows a match's draft or nothing. */
  type Drafts = map<string, string>

  function DraftShown(drafts: Drafts, id: string): (text: string)
    ensures id in drafts ==> text == drafts[id]
    ensures id !in drafts ==> text == ""
  {
    if id in drafts then drafts[id] else ""
  }

  /**
   * `handleReview`'s update: without a signed-in user it stops before writing; otherwise the
   * match gets the decision, the reviewing user, the time and the draft notes (an empty draft as null).
   */
  function Review(m: Match, d: Decision, user: Option<string>, nowIso: string, drafts: Drafts): (r: Result<Match, string>)
    ensures r.Err? <==> user.None?
    ensures r.Ok? ==> r.value.status == DecisionName(d) && r.value.reviewedBy == user && r.value.reviewedAt == Some(nowIso)
    ensures r.Ok? ==> r.value.notes == OrNull(DraftShown(drafts, m.id))
    ensures r.Ok? ==> r.value.(status := m.status, reviewedBy := m.reviewedBy, reviewedAt := m.reviewedAt, notes := m.notes) == m
  {
    match user
    case None => Err("Not authenticated")
    case Some(u) =>
      Ok(m.(status := DecisionName(d), reviewedBy := Some(u), reviewedAt := Some(nowIso), notes := OrNull(DraftShown(drafts, m.id))))
  }

  /** The update applied by id to the table. */
  function ReviewInTable(table: seq<Match>, id: string, d: Decision, user: string, nowIso: string, drafts: Drafts): (r: seq<Match>)
    ensures |r| == |table|
    ensures forall k :: 0 <= k < |table| && table[k].id != id ==> r[k] == table[k]
    ensures forall k :: 0 <= k < |table| && table[k].id == id ==> Review(table[k], d, Some(user), nowIso, drafts) == Ok(r[k])
  {
    seq(|table|, k requires 0 <= k < |table| =>
      if table[k].id == id then table[k].(status := DecisionName(d), reviewedBy := Some(user), reviewedAt := Some(nowIso), notes := OrNull(DraftShown(drafts, table[k].id)))
      else table[k])
  }

  /** A reviewed match leaves the list, and every other pending match stays on it. */
  lemma ReviewedMatchLeavesTheList(table: seq<Match>, id: string, d: Decision, user: string, nowIso: string, drafts: Drafts)
    ensures forall m :: m in PendingMatches(ReviewInTable(table, id, d, user, nowIso, drafts)) ==> m.id != id
    ensures forall m :: m in PendingMatches(table) && m.id != id ==> m in PendingMatches(ReviewInTable(table, id, d, user, nowIso, drafts))
  {
    var t := ReviewInTable(table, id, d, user, nowIso, drafts);
    forall m | m in PendingMatches(table) && m.id != id
      ensures m in t
    {
      var k :| 0 <= k < |table| && table[k] == m;
      assert t[k] == m;
    }
  }

  /** After a successful review, that match's draft is dropped and every other draft is kept. */
  function DropDraft(drafts: Drafts, id: string): (r: Drafts)
    ensures id !in r
    ensures forall k :: k != id ==> (k in r <==> k in drafts)
    ensures forall k :: k in r ==> r[k] == drafts[k]
  {
    drafts - {id}
  }

  /** Dropping a draft clears only that match's text box. */
  lemma DropDraftClearsOnlyThatBox(drafts: Drafts, id: string, other: string)
    ensures DraftShown(DropDraft(drafts, id), id) == ""
    ensures other != id ==> DraftShown(DropDraft(drafts, id), other) == DraftShown(drafts, other)
  {
  }
}
