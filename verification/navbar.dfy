/**
 * The navigation bar: when the staff links are shown, and which of them is
 * highlighted for the current location.
 */
module Navbar {
  import opened Wrappers
  import opened Text
  import opened Schema
  import QueryParams

  /** The location the links are judged against: a pending navigation when there is one, else the real one. */
  function CurrentPath(pending: Option<string>, pathname: string, search: string): (p: string)
    ensures Truthy(pending) ==> p == pending.value
    ensures !Truthy(pending) ==> p == pathname + search
  {
    OrFallback(pending.GetOr(""), pathname + search)
  }

  /** On an admin route, judged by the real path or the pending one. */
  predicate IsAdminRoute(pathname: string, pending: Option<string>) {
    StartsWith(pathname, "/admin") || (pending.Some? && StartsWith(pending.value, "/admin"))
  }

  /** The staff links are shown on admin routes, and anywhere to a signed-in staff member. */
  function ShowStaffNav(pathname: string, pending: Option<string>, signedIn: bool, role: Role): (show: bool)
    ensures signedIn && role == Some(Staff) ==> show
    ensures StartsWith(pathname, "/admin") ==> show
    ensures !show ==> pending.None? || !StartsWith(pending.value, "/admin")
  {
    IsAdminRoute(pathname, pending) || (signedIn && role == Some(Staff))
  }

  /** Staff always get the staff links; anyone else gets them only while on, or heading to, an admin route. */
  lemma StaffNavForStaffOrAdminRoutes(pathname: string, pending: Option<string>, signedIn: bool, role: Role)
    ensures signedIn && role == Some(Staff) ==> ShowStaffNav(pathname, pending, signedIn, role)
    ensures !(signedIn && role == Some(Staff)) ==> (ShowStaffNav(pathname, pending, signedIn, role) <==> IsAdminRoute(pathname, pending))
    ensures ShowStaffNav("/admin/reports", None, false, None)
  {
  }

  /** The part of a string before its first `?`, and the part between the first and second. */
  function BeforeQuery(s: string): string {
    Split(s, '?')[0]
  }

  function QueryPart(s: string): string {
    var parts := Split(s, '?');
    if |parts| > 1 then parts[1] else ""
  }

  /**
   * The check for a target with a query: the current path must start with the target's base
   * and, when it has a query of its own, give every target parameter the target's value;
   * without a query it matches only a target whose query has no parameters.
   */
  function QueryTargetActive(path: string, current: string): (active: bool)
    ensures active ==> StartsWith(current, BeforeQuery(path))
    ensures active && '?' in current ==> forall k :: 0 <= k < |QueryParams.Parse(QueryPart(path))| ==>
      QueryParams.Get(QueryParams.Parse(QueryPart(current)), QueryParams.Parse(QueryPart(path))[k].0)
        == Some(QueryParams.Parse(QueryPart(path))[k].1)
    ensures '?' !in current && QueryParams.Parse(QueryPart(path)) != [] ==> !active
  {
    var params := QueryParams.Parse(QueryPart(path));
    StartsWith(current, BeforeQuery(path))
    && if '?' in current then
         var currentParams := QueryParams.Parse(QueryPart(current));
         forall k :: 0 <= k < |params| ==> QueryParams.Get(currentParams, params[k].0) == Some(params[k].1)
       else QueryParams.ToString(params) == ""
  }

  /** `checkActive` as the bar has it: the special case for bare "/admin" comes after the query branch. */
  function CheckActiveAsWritten(path: string, current: string): (active: bool)
    ensures '?' !in path ==> (active <==> current == path)
    ensures active && '?' in path ==> StartsWith(current, BeforeQuery(path))
  {
    assert ItemsPath[6] == '?';
    if '?' in path then QueryTargetActive(path, current)
    else if path == ItemsPath && current == "/admin" then true
    else current == path
  }

  /** `checkActive` with the bare-"/admin" case first, so the Items link is lit on the dashboard's default tab. */
  function CheckActive(path: string, current: string): (active: bool)
    ensures '?' !in path ==> (active <==> current == path)
    ensures active && '?' in path && current != "/admin" ==> StartsWith(current, BeforeQuery(path))
    ensures path == ItemsPath && current == "/admin" ==> active
  {
    assert ItemsPath[6] == '?';
    if path == ItemsPath && current == "/admin" then true
    else if '?' in path then QueryTargetActive(path, current)
    else current == path
  }

  /** The four staff links' targets; the tab links are written as base path, `?` and their one parameter. */
  const ItemsPath: string := "/admin" + "?" + ("tab" + "=" + "items")
  const ClaimsPath: string := "/admin" + "?" + ("tab" + "=" + "claims")
  const BulkReleasePath: string := "/admin/bulk-release"
  const ReportsPath: string := "/admin/reports"

  /** The highlight of the four staff links. */
  datatype ActiveStates = ActiveStates(items: bool, claims: bool, bulkRelease: bool, reports: bool)

  function ActiveStatesAsWritten(current: string): ActiveStates {
    ActiveStates(
      CheckActiveAsWritten(ItemsPath, current), CheckActiveAsWritten(ClaimsPath, current),
      CheckActiveAsWritten(BulkReleasePath, current), CheckActiveAsWritten(ReportsPath, current))
  }

  function ActiveStatesOf(current: string): ActiveStates {
    ActiveStates(
      CheckActive(ItemsPath, current), CheckActive(ClaimsPath, current),
      CheckActive(BulkReleasePath, current), CheckActive(ReportsPath, current))
  }

  /** A location with one `?` splits into the parts around it. */
  lemma SplitAtQuery(base: string, query: string)
    requires '?' !in base && '?' !in query
    ensures '?' in base + "?" + query
    ensures BeforeQuery(base + "?" + query) == base && QueryPart(base + "?" + query) == query
  {
    var s := base + "?" + query;
    assert s == base + ['?'] + query;
    assert s[|base|] == '?';
    SplitAfterPiece(base, '?', query);
    SplitNoSeparator(query, '?');
  }

  /** A query of one writable pair reads back as that pair. */
  lemma ParseOnePair(name: string, value: string)
    requires QueryParams.Writable((name, value))
    ensures QueryParams.Parse(name + "=" + value) == [(name, value)]
  {
    QueryParams.ParseToString([(name, value)]);
  }

  /** The tab a tab link selects. */
  function TabOf(path: string): string {
    if path == ItemsPath then "items" else "claims"
  }

  /** The two tab links split into the base path "/admin" and the single parameter `tab`. */
  lemma TabTarget(path: string)
    requires path == ItemsPath || path == ClaimsPath
    ensures '?' in path
    ensures BeforeQuery(path) == "/admin"
    ensures QueryParams.Parse(QueryPart(path)) == [("tab", TabOf(path))]
  {
    if path == ItemsPath {
      ItemsTarget();
    } else {
      ClaimsTarget();
    }
  }

  lemma ItemsTarget()
    ensures '?' in ItemsPath
    ensures BeforeQuery(ItemsPath) == "/admin"
    ensures QueryParams.Parse(QueryPart(ItemsPath)) == [("tab", "items")]
  {
    TabParts("items");
  }

  lemma ClaimsTarget()
    ensures '?' in ClaimsPath
    ensures BeforeQuery(ClaimsPath) == "/admin"
    ensures QueryParams.Parse(QueryPart(ClaimsPath)) == [("tab", "claims")]
  {
    TabParts("claims");
  }

  lemma TabParts(tab: string)
    requires tab == "items" || tab == "claims"
    ensures '?' in "/admin" + "?" + ("tab" + "=" + tab)
    ensures BeforeQuery("/admin" + "?" + ("tab" + "=" + tab)) == "/admin"
    ensures QueryParams.Parse(QueryPart("/admin" + "?" + ("tab" + "=" + tab))) == [("tab", tab)]
  {
    assert '?' !in "/admin";
    assert '?' !in "tab" + "=" + tab && '&' !in tab;
    SplitAtQuery("/admin", "tab" + "=" + tab);
    ParseOnePair("tab", tab);
  }

  /** A tab link is never lit on a location without a query. */
  lemma TabLinkNeedsAQuery(path: string, current: string)
    requires path == ItemsPath || path == ClaimsPath
    requires '?' !in current
    ensures !CheckActiveAsWritten(path, current)
  {
    TabTarget(path);
    assert QueryParams.ToString([("tab", TabOf(path))]) != "";
  }

  /** A link without a query is lit only on exactly its own location. */
  lemma PlainLinkNeedsExactPath(path: string, current: string)
    requires '?' !in path
    ensures CheckActiveAsWritten(path, current) <==> current == path
    ensures CheckActive(path, current) <==> current == path
  {
  }

  /** The base path is compared as a raw prefix, so a reports page with an items query lights the Items link. */
  lemma RawPrefixLightsItemsOnReports(current: string)
    requires current == "/admin/reports" + "?" + ("tab" + "=" + "items")
    ensures CheckActiveAsWritten(ItemsPath, current)
  {
    ItemsTarget();
    assert '?' in current && StartsWith(current, BeforeQuery(ItemsPath)) by {
      assert current[|"/admin/reports"|] == '?';
      assert current[..|"/admin"|] == "/admin";
    }
    var currentParams := QueryParams.Parse(QueryPart(current));
    assert currentParams == [("tab", "items")] by {
      assert '?' !in "/admin/reports" && '?' !in "tab" + "=" + "items";
      SplitAtQuery("/admin/reports", "tab" + "=" + "items");
      assert '&' !in "items";
      ParseOnePair("tab", "items");
    }
    var params := QueryParams.Parse(QueryPart(ItemsPath));
    assert forall k :: 0 <= k < |params| ==> QueryParams.Get(currentParams, params[k].0) == Some(params[k].1);
  }

  /** Items and Claims are never lit together: a query gives the tab only its first value. */
  lemma ItemsAndClaimsExclusive(current: string)
    ensures !(ActiveStatesAsWritten(current).items && ActiveStatesAsWritten(current).claims)
    ensures !(ActiveStatesOf(current).items && ActiveStatesOf(current).claims)
  {
    ItemsTarget();
    ClaimsTarget();
    if '?' in current {
      var cp := QueryParams.Parse(QueryPart(current));
      assert CheckActiveAsWritten(ItemsPath, current) ==> QueryParams.Get(cp, "tab") == Some("items") by {
        var ip := QueryParams.Parse(QueryPart(ItemsPath));
        assert ip[0] == ("tab", "items");
      }
      assert CheckActiveAsWritten(ClaimsPath, current) ==> QueryParams.Get(cp, "tab") == Some("claims") by {
        var ip := QueryParams.Parse(QueryPart(ClaimsPath));
        assert ip[0] == ("tab", "claims");
      }
    } else {
      TabLinkNeedsAQuery(ClaimsPath, current);
    }
  }

  /** On the dashboard's bare path the bar as written lights no link, though Items is the tab shown. */
  lemma BareAdminLightsNothingAsWritten(current: string)
    requires current == "/admin"
    ensures ActiveStatesAsWritten(current) == ActiveStates(false, false, false, false)
  {
    TabLinkNeedsAQuery(ItemsPath, current);
    TabLinkNeedsAQuery(ClaimsPath, current);
    PlainLinkNeedsExactPath(BulkReleasePath, current);
    PlainLinkNeedsExactPath(ReportsPath, current);
  }

  /** With the special case first, the bare path lights the Items link alone. */
  lemma BareAdminLightsItems(current: string)
    requires current == "/admin"
    ensures ActiveStatesOf(current) == ActiveStates(true, false, false, false)
  {
    TabLinkNeedsAQuery(ClaimsPath, current);
    PlainLinkNeedsExactPath(BulkReleasePath, current);
    PlainLinkNeedsExactPath(ReportsPath, current);
    assert ClaimsPath != ItemsPath by {
      assert ClaimsPath[11] != ItemsPath[11];
    }
  }

  /** The correction changes the verdict only for the Items link on the bare path. */
  lemma CorrectionOnlyAtBareAdmin(path: string, current: string)
    ensures CheckActive(path, current) != CheckActiveAsWritten(path, current) <==> path == ItemsPath && current == "/admin"
  {
    if path == ItemsPath && current == "/admin" {
      TabLinkNeedsAQuery(ItemsPath, current);
    }
  }
}
