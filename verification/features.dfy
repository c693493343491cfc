/**
 * The features page: which role may use which feature, the badge that
 * summarises each feature's audience, and the button each visitor sees.
 */
module FeatureAccess {
  import opened Wrappers
  import opened Schema

  /** Who may use a feature, per kind of visitor. */
  datatype Access = Access(guest: bool, student: bool, staff: bool)

  datatype Feature = Feature(id: string, access: Access, route: string, requiresAuth: bool)

  const Browse: Feature := Feature("browse", Access(true, true, true), "/browse", false)
  const ReportLost: Feature := Feature("report-lost", Access(true, true, false), "/report", false)
  const ReportFound: Feature := Feature("report-found", Access(false, false, true), "/report", true)
  const ClaimItem: Feature := Feature("claim-item", Access(false, true, true), "/browse", false)
  const MyItemsFeature: Feature := Feature("my-items", Access(false, true, true), "/my-items", true)
  const AdminItems: Feature := Feature("admin-items", Access(false, false, true), "/admin?tab=items", true)
  const AdminClaims: Feature := Feature("admin-claims", Access(false, false, true), "/admin?tab=claims", true)
  const ReportsFeature: Feature := Feature("reports", Access(false, false, true), "/admin/reports", true)
  const BulkRelease: Feature := Feature("bulk-release", Access(false, false, true), "/admin/bulk-release", true)
  const StorageFeature: Feature := Feature("storage", Access(false, false, true), "/admin/storage", true)
  const AuditFeature: Feature := Feature("audit", Access(false, false, true), "/admin/audit", true)

  /** The page's feature list, in display order. */
  const Features: seq<Feature> := [
    Browse, ReportLost, ReportFound, ClaimItem, MyItemsFeature, AdminItems, AdminClaims,
    ReportsFeature, BulkRelease, StorageFeature, AuditFeature]

  /** `currentRole`: "loading" while the role loads, then the role, with no role meaning a guest. */
  datatype Viewer = Loading | Guest | Signed(role: AppRole)

  function CurrentRole(role: Role, roleLoading: bool): (v: Viewer)
    ensures v.Loading? <==> roleLoading
    ensures !roleLoading && role.None? ==> v == Guest
    ensures !roleLoading && role.Some? ==> v == Signed(role.value)
  {
    if roleLoading then Loading
    else match role
      case None => Guest
      case Some(r) => Signed(r)
  }

  /** `canAccess`: nothing while loading, otherwise the viewer's column of the access table. */
  function CanAccess(f: Feature, v: Viewer): (ok: bool)
    ensures v.Loading? ==> !ok
    ensures v == Guest ==> ok == f.access.guest
    ensures v == Signed(Student) ==> ok == f.access.student
    ensures v == Signed(Staff) ==> ok == f.access.staff
  {
    match v
    case Loading => false
    case Signed(Staff) => f.access.staff
    case Signed(Student) => f.access.student
    case Guest => f.access.guest
  }

  /** Staff report found items and never lost ones; everyone else may report lost items but never found ones. */
  lemma ReportingIsSplitByRole(v: Viewer)
    requires !v.Loading?
    ensures CanAccess(ReportFound, v) <==> v == Signed(Staff)
    ensures CanAccess(ReportLost, v) <==> v != Signed(Staff)
  {
  }

  /** The staff-only features are closed to students and guests, and staff may use everything but lost reports. */
  lemma StaffSeeEverythingButLostReports(k: nat)
    requires k < |Features|
    ensures CanAccess(Features[k], Signed(Staff)) <==> Features[k] != ReportLost
    ensures CanAccess(Features[k], Guest) <==> Features[k] == Browse || Features[k] == ReportLost
  {
  }

  datatype AccessBadge = Everyone | LoggedInUsers | StaffOnly | StudentsAndGuests | GuestsOnly

  /** `getAccessBadge`: the first matching rule, from the widest audience down. */
  function Badge(a: Access): (b: AccessBadge)
    ensures b == Everyone <==> a.staff && a.student && a.guest
    ensures b == LoggedInUsers <==> a.staff && a.student && !a.guest
    ensures b == StaffOnly <==> a.staff && !a.student
    ensures b == StudentsAndGuests <==> !a.staff && a.student
    ensures b == GuestsOnly <==> !a.staff && !a.student
  {
    if a.staff && a.student && a.guest then Everyone
    else if a.staff && a.student then LoggedInUsers
    else if a.staff then StaffOnly
    else if a.student then StudentsAndGuests
    else GuestsOnly
  }

  /** The audience a badge's label names. */
  function Named(b: AccessBadge): Access {
    match b
    case Everyone => Access(true, true, true)
    case LoggedInUsers => Access(false, true, true)
    case StaffOnly => Access(false, false, true)
    case StudentsAndGuests => Access(true, true, false)
    case GuestsOnly => Access(true, false, false)
  }

  /** On every listed feature the badge names exactly the roles that may use it. */
  lemma BadgesDescribeTheTable(k: nat)
    requires k < |Features|
    ensures Named(Badge(Features[k].access)) == Features[k].access
  {
  }

  /**
   * The rules only read the staff and student columns past the first: an access pattern not
   * in the table, such as staff and guests without students, would be labelled "Staff Only".
   */
  lemma BadgeIgnoresGuestsBelowTheTop()
    ensures Badge(Access(true, false, true)) == StaffOnly
    ensures Named(Badge(Access(true, false, true))) != Access(true, false, true)
  {
  }

  /** `needsAuth`: the feature requires an account and the visitor has none. */
  predicate NeedsAuth(f: Feature, authenticated: bool) {
    f.requiresAuth && !authenticated
  }

  datatype ActionButton = AccessFeature | SignInRequired | AccessRestricted

  /** The card's button: restricted without access, else a sign-in prompt when an account is needed. */
  function Button(f: Feature, v: Viewer, authenticated: bool): (b: ActionButton)
    ensures b == AccessRestricted <==> !CanAccess(f, v)
    ensures b == SignInRequired <==> CanAccess(f, v) && NeedsAuth(f, authenticated)
    ensures b == AccessFeature <==> CanAccess(f, v) && !NeedsAuth(f, authenticated)
  {
    if !CanAccess(f, v) then AccessRestricted
    else if NeedsAuth(f, authenticated) then SignInRequired
    else AccessFeature
  }

  /**
   * A guest can use only features that need no account, so no listed feature ever shows a guest
   * the sign-in prompt; it appears only for a role held without a session.
   */
  lemma GuestsNeverAskedToSignIn(k: nat, authenticated: bool)
    requires k < |Features|
    ensures Button(Features[k], Guest, authenticated) != SignInRequired
    ensures Button(Features[k], Loading, authenticated) == AccessRestricted
  {
  }
}
