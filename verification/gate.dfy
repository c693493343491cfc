/**
 * The client-side staff check each admin page runs before it loads data. Two
 * variants exist: one waits for the role to load before deciding, the other
 * loads as soon as the role is staff and redirects once a loaded role is not.
 */
module StaffGate {
  import opened Wrappers
  import opened Schema

  /** What the page's effect does on this render. */
  datatype PageLoad = Wait | Redirect | Load

  /** The admin dashboard and the add-claim page: decide only after the role has loaded. */
  function AfterRoleLoads(role: Role, roleLoading: bool): (a: PageLoad)
    ensures a.Load? ==> role == Some(Staff)
    ensures a.Wait? <==> roleLoading
  {
    if roleLoading then Wait
    else if role != Some(Staff) then Redirect
    else Load
  }

  /** The storage, audit-log and reports pages: redirect once a loaded role is not staff, load whenever it is. */
  function Eager(role: Role, roleLoading: bool): (a: PageLoad)
    ensures a.Load? ==> role == Some(Staff)
    ensures a.Redirect? ==> !roleLoading
  {
    if !roleLoading && role != Some(Staff) then Redirect
    else if role == Some(Staff) then Load
    else Wait
  }

  /** Once the role has loaded the two variants decide alike: staff load, everyone else is sent away. */
  lemma GatesAgreeOnceLoaded(role: Role)
    ensures AfterRoleLoads(role, false) == Eager(role, false)
    ensures AfterRoleLoads(role, false) == (if role == Some(Staff) then Load else Redirect)
  {
  }

  /** The variants differ only for a staff role that is still marked loading. */
  lemma GatesDifferOnlyWhileLoadingStaff(role: Role, roleLoading: bool)
    ensures AfterRoleLoads(role, roleLoading) != Eager(role, roleLoading) <==> roleLoading && role == Some(Staff)
  {
  }
}
