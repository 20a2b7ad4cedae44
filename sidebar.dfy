/** The side navigation: a fixed list of links per role. */
module Sidebar {
  import opened Wrappers
  import opened Types
  import opened App

  datatype NavItem = NavItem(name: string, path: Path)

  /** `navigationItems[role]`. */
  function NavigationItems(role: Role): (items: seq<NavItem>)
    ensures |items| >= 1 && items[0].path == DashboardPath
    // paths serve as the list's keys, so they are unique within a role
    ensures forall i, j :: 0 <= i < j < |items| ==> items[i].path != items[j].path
  {
    match role
    case Student => [
      NavItem("Dashboard", DashboardPath),
      NavItem("Assignments", AssignmentsPath),
      NavItem("Completed", CompletedPath),
      NavItem("Calendar", CalendarPath),
      NavItem("Subjects", SubjectsPath)
    ]
    case Parent => [
      NavItem("Dashboard", DashboardPath),
      NavItem("My Students", StudentsPath),
      NavItem("Assignments", AssignmentsPath),
      NavItem("Calendar", CalendarPath),
      NavItem("Progress", ProgressPath)
    ]
    case Admin => [
      NavItem("Dashboard", DashboardPath),
      NavItem("Students", StudentsPath),
      NavItem("Parents", ParentsPath),
      NavItem("Assignments", AssignmentsPath),
      NavItem("Subjects", SubjectsPath),
      NavItem("Reports", ReportsPath),
      NavItem("Settings", SettingsPath)
    ]
  }

  /** `userRole ? navigationItems[userRole] : []`. */
  function Items(userRole: Option<Role>): (items: seq<NavItem>)
    ensures userRole.None? <==> items == []
    ensures userRole.Some? ==> items == NavigationItems(userRole.value)
  {
    match userRole
    case None => []
    case Some(r) => NavigationItems(r)
  }

  /** Every link a signed-in role sees opens its page for that role instead of
      being redirected by the route guard. */
  lemma LinksPassTheGuard(role: Role, i: nat)
    requires i < |NavigationItems(role)|
    ensures Resolve(NavigationItems(role)[i].path, true, Some(role)).Show?
  {
  }

  /** The links never include the sign-in page or an unmatched URL. */
  lemma LinksAreRoutes(role: Role, i: nat)
    requires i < |NavigationItems(role)|
    ensures NavigationItems(role)[i].path == DashboardPath || AllowedRoles(NavigationItems(role)[i].path).Some?
  {
  }
}
