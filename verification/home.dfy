/**
 * The home page's staff check and its quick-action buttons.
 */
module HomePage {
  import opened Wrappers
  import opened Schema

  /** `isStaff`: false until both the session and the role have loaded, then a signed-in staff member. */
  function IsStaff(userLoaded: bool, roleLoading: bool, signedIn: bool, role: Role): (staff: bool)
    ensures !userLoaded || roleLoading ==> !staff
    ensures userLoaded && !roleLoading ==> (staff <==> signedIn && role == Some(Staff))
  {
    if !userLoaded || roleLoading then false else signedIn && role == Some(Staff)
  }

  /** The quick-action section and the buttons rendered inside it. */
  datatype QuickActions = QuickActions(
    sectionShown: bool, browse: bool, reportLost: bool, reportFound: bool,
    myItems: bool, adminDashboard: bool, signIn: bool)

  /** The section is hidden exactly when staff content is shown; each button has its own condition on the raw role and user. */
  function Actions(userLoaded: bool, roleLoading: bool, signedIn: bool, role: Role): (a: QuickActions)
    ensures a.sectionShown <==> !IsStaff(userLoaded, roleLoading, signedIn, role)
    ensures a.browse
    ensures a.reportLost <==> role != Some(Staff)
    ensures a.reportFound <==> signedIn && role == Some(Staff)
    ensures a.adminDashboard <==> signedIn && role == Some(Staff)
    ensures a.myItems <==> signedIn
    ensures a.signIn <==> !signedIn
  {
    QuickActions(
      !IsStaff(userLoaded, roleLoading, signedIn, role), true, role != Some(Staff),
      signedIn && role == Some(Staff), signedIn, signedIn && role == Some(Staff), !signedIn)
  }

  /** The two report buttons are never rendered together, and exactly one of My Items and Sign In is. */
  lemma ButtonsExcludeEachOther(userLoaded: bool, roleLoading: bool, signedIn: bool, role: Role)
    ensures !(Actions(userLoaded, roleLoading, signedIn, role).reportLost && Actions(userLoaded, roleLoading, signedIn, role).reportFound)
    ensures Actions(userLoaded, roleLoading, signedIn, role).myItems != Actions(userLoaded, roleLoading, signedIn, role).signIn
  {
  }

  /**
   * Once everything has loaded, a staff member's section is hidden, so the staff buttons are
   * only ever visible in the section while the session or role is still loading.
   */
  lemma StaffButtonsVisibleOnlyWhileLoading(userLoaded: bool, roleLoading: bool, signedIn: bool, role: Role)
    ensures Actions(userLoaded, roleLoading, signedIn, role).sectionShown && Actions(userLoaded, roleLoading, signedIn, role).reportFound
      ==> !userLoaded || roleLoading
    ensures Actions(false, false, true, Some(Staff)).sectionShown && Actions(false, false, true, Some(Staff)).reportFound
  {
  }

  /** A visitor who is not staff always sees the section with Browse and Report Lost. */
  lemma NonStaffSeeReportLost(userLoaded: bool, roleLoading: bool, signedIn: bool, role: Role)
    requires role != Some(Staff)
    ensures Actions(userLoaded, roleLoading, signedIn, role).sectionShown
    ensures Actions(userLoaded, roleLoading, signedIn, role).reportLost && !Actions(userLoaded, roleLoading, signedIn, role).reportFound
  {
  }
}
