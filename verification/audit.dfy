/**
 * The audit-log page: the newest hundred entries, a text search combined with
 * an action-type filter, and the icon and colour each action type is shown with.
 */
module AuditLog {
  import opened Wrappers
  import opened Text
  import opened Schema
  import opened Search
  import Seqs

  /** The page fetches at most this many entries. */
  const FetchLimit: nat := 100

  /** `.order("timestamp", descending).limit(100)` on a log already in newest-first order. */
  function LatestEntries(newestFirst: seq<AuditEntry>): (r: seq<AuditEntry>)
    ensures |r| <= FetchLimit
    ensures |r| == if |newestFirst| < FetchLimit then |newestFirst| else FetchLimit
    ensures r == newestFirst[..|r|]
  {
    if |newestFirst| <= FetchLimit then newestFirst else newestFirst[..FetchLimit]
  }

  /** An entry passes when its action or action type contains the term and the type filter accepts it. */
  predicate EntryMatches(e: AuditEntry, term: string, filterType: string) {
    var key := Lower(term);
    (OptionalContains(e.action, key) || OptionalContains(e.actionType, key))
    && (filterType == "all" || e.actionType == Some(filterType))
  }

  /** `filteredLogs`. */
  function FilteredLogs(logs: seq<AuditEntry>, term: string, filterType: string): (r: seq<AuditEntry>)
    ensures Seqs.IsSubsequence(r, logs)
    ensures forall k :: 0 <= k < |r| ==> r[k] in logs && EntryMatches(r[k], term, filterType)
    ensures forall k :: 0 <= k < |logs| && EntryMatches(logs[k], term, filterType) ==> logs[k] in r
  {
    Seqs.FilterIsSubsequence(logs, e => EntryMatches(e, term, filterType));
    Seqs.Filter(logs, e => EntryMatches(e, term, filterType))
  }

  predicate HasText(e: AuditEntry) {
    e.action.Some? || e.actionType.Some?
  }

  /** With the empty term and the "all" filter, exactly the entries with an action or an action type remain. */
  lemma EmptySearchKeepsEntriesWithText(logs: seq<AuditEntry>)
    ensures FilteredLogs(logs, "", "all") == Seqs.Filter(logs, HasText)
  {
    forall k | 0 <= k < |logs| ensures EntryMatches(logs[k], "", "all") == HasText(logs[k]) {
      if logs[k].action.Some? { EmptyKeyMatchesPresent(logs[k].action); }
      if logs[k].actionType.Some? { EmptyKeyMatchesPresent(logs[k].actionType); }
    }
    Seqs.FilterCongruent(logs, e => EntryMatches(e, "", "all"), HasText);
  }

  /** A type filter other than "all" keeps only entries of that type. */
  lemma TypeFilterIsExact(logs: seq<AuditEntry>, term: string, filterType: string)
    requires filterType != "all"
    ensures forall k :: 0 <= k < |FilteredLogs(logs, term, filterType)| ==>
      FilteredLogs(logs, term, filterType)[k].actionType == Some(filterType)
  {
  }

  // ---------------------------------------------------------------- presentation

  /** The six action types the page knows, and everything else. */
  datatype ActionKind = Create | Update | Delete | ClaimAction | MatchAction | StatusChange | OtherAction

  function KindOf(actionType: string): (k: ActionKind)
    ensures k == OtherAction <==> actionType !in KnownTypes
  {
    if actionType == "create" then Create
    else if actionType == "update" then Update
    else if actionType == "delete" then Delete
    else if actionType == "claim" then ClaimAction
    else if actionType == "match" then MatchAction
    else if actionType == "status_change" then StatusChange
    else OtherAction
  }

  const KnownTypes: seq<string> := ["create", "update", "delete", "claim", "match", "status_change"]

  /** The icon shown before an entry's action. */
  function ActionIcon(actionType: string): (icon: string)
    ensures actionType !in KnownTypes ==> icon == "\U{1F4DD}"
  {
    match KindOf(actionType)
    case Create => "\U{2795}"
    case Update => "\U{270F}\U{FE0F}"
    case Delete => "\U{1F5D1}\U{FE0F}"
    case ClaimAction => "\U{1F4CB}"
    case MatchAction => "\U{1F517}"
    case StatusChange => "\U{1F504}"
    case OtherAction => "\U{1F4DD}"
  }

  /** The badge colour classes of an entry's action type. */
  function ActionColor(actionType: string): (classes: string)
    ensures actionType !in KnownTypes ==> classes == "bg-gray-100 text-gray-800"
  {
    match KindOf(actionType)
    case Create => "bg-green-100 text-green-800"
    case Update => "bg-blue-100 text-blue-800"
    case Delete => "bg-red-100 text-red-800"
    case ClaimAction => "bg-yellow-100 text-yellow-800"
    case MatchAction => "bg-purple-100 text-purple-800"
    case StatusChange => "bg-orange-100 text-orange-800"
    case OtherAction => "bg-gray-100 text-gray-800"
  }

  /** Each known type has an icon and a colour of its own; every unknown type shares the fallbacks. */
  lemma PresentationSeparatesKnownTypes(a: string, b: string)
    ensures a !in KnownTypes && b !in KnownTypes ==> ActionIcon(a) == ActionIcon(b) && ActionColor(a) == ActionColor(b)
    ensures ActionIcon(a) == ActionIcon(b) <==> KindOf(a) == KindOf(b)
    ensures ActionColor(a) == ActionColor(b) <==> KindOf(a) == KindOf(b)
  {
  }
}
