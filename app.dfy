/** The route guard, the role dispatch of `/dashboard` and the route table.
    A `<Navigate>` element becomes the decision value `Navigate(to)`. */
module App {
  import opened Wrappers
  import opened Seqs
  import opened Types

  datatype GateDecision = ToLogin | ToDashboard | Allow

  /** `ProtectedRoute`: sign-in first, then the role check, which only applies
      when the route names roles and a role is known. */
  function ProtectedRoute(isAuthenticated: bool, userRole: Option<Role>, allowedRoles: seq<Role>): (d: GateDecision)
    ensures d == ToLogin <==> !isAuthenticated
    ensures d == ToDashboard <==>
              isAuthenticated && |allowedRoles| > 0 && userRole.Some? && userRole.value !in allowedRoles
    ensures d == Allow <==>
              isAuthenticated && (allowedRoles == [] || userRole.None? || userRole.value in allowedRoles)
  {
    if !isAuthenticated then ToLogin
    else if |allowedRoles| > 0 && userRole.Some? && userRole.value !in allowedRoles then ToDashboard
    else Allow
  }

  /** What the application can put on screen. */
  datatype Page = LoginForm | StudentHome | ParentHome | AdminHome | Section(title: string)

  datatype Outcome = Navigate(to: Path) | Show(page: Page)

  /** `DashboardSelector`: each role gets its own dashboard; no role goes to sign-in. */
  function DashboardSelector(userRole: Option<Role>): (o: Outcome)
    ensures userRole == Some(Student) <==> o == Show(StudentHome)
    ensures userRole == Some(Parent) <==> o == Show(ParentHome)
    ensures userRole == Some(Admin) <==> o == Show(AdminHome)
    ensures userRole.None? <==> o == Navigate(LoginPath)
  {
    match userRole
    case Some(Student) => Show(StudentHome)
    case Some(Parent) => Show(ParentHome)
    case Some(Admin) => Show(AdminHome)
    case None => Navigate(LoginPath)
  }

  /** The locations the application knows, and any other URL. */
  datatype Path =
    | LoginPath | RootPath | DashboardPath
    | AssignmentsPath | CompletedPath | StudentsPath | ProgressPath | ParentsPath
    | SubjectsPath | ReportsPath | SettingsPath | CalendarPath | ProfilePath
    | OtherPath(url: string)

  function PathText(p: Path): string {
    match p
    case LoginPath => "/login"
    case RootPath => "/"
    case DashboardPath => "/dashboard"
    case AssignmentsPath => "/assignments"
    case CompletedPath => "/completed"
    case StudentsPath => "/students"
    case ProgressPath => "/progress"
    case ParentsPath => "/parents"
    case SubjectsPath => "/subjects"
    case ReportsPath => "/reports"
    case SettingsPath => "/settings"
    case CalendarPath => "/calendar"
    case ProfilePath => "/profile"
    case OtherPath(url) => url
  }

  /** Route matching on the whole URL: exactly the listed strings are known. */
  function ParsePath(url: string): (p: Path)
    ensures PathText(p) == url
  {
    if url == "/login" then LoginPath
    else if url == "/" then RootPath
    else if url == "/dashboard" then DashboardPath
    else if url == "/assignments" then AssignmentsPath
    else if url == "/completed" then CompletedPath
    else if url == "/students" then StudentsPath
    else if url == "/progress" then ProgressPath
    else if url == "/parents" then ParentsPath
    else if url == "/subjects" then SubjectsPath
    else if url == "/reports" then ReportsPath
    else if url == "/settings" then SettingsPath
    else if url == "/calendar" then CalendarPath
    else if url == "/profile" then ProfilePath
    else OtherPath(url)
  }

  /** Each known location is matched by its own URL. */
  lemma ParsePathText(p: Path)
    requires !p.OtherPath?
    ensures ParsePath(PathText(p)) == p
  {
    match p
    case LoginPath =>
    case RootPath =>
      assert PathText(p) != "/login";
    case DashboardPath =>
      assert PathText(p)[1] == 'd';
    case AssignmentsPath =>
      assert PathText(p)[1] == 'a';
    case CompletedPath =>
      assert PathText(p)[1] == 'c' && PathText(p)[3] == 'm';
    case StudentsPath =>
      assert PathText(p)[1] == 's' && PathText(p)[3] == 'u';
    case ProgressPath =>
      assert PathText(p)[1] == 'p' && PathText(p)[3] == 'o' && PathText(p)[4] == 'g';
    case ParentsPath =>
      assert PathText(p)[1] == 'p' && PathText(p)[3] == 'r';
    case SubjectsPath =>
      assert PathText(p)[1] == 's' && PathText(p)[3] == 'b';
    case ReportsPath =>
      assert PathText(p)[1] == 'r';
    case SettingsPath =>
      assert PathText(p)[1] == 's' && PathText(p)[3] == 't';
    case CalendarPath =>
      assert PathText(p)[1] == 'c' && PathText(p)[3] == 'l';
    case ProfilePath =>
      assert PathText(p)[1] == 'p' && PathText(p)[3] == 'o' && PathText(p)[4] == 'f';
  }

  const AllRoles: seq<Role> := [Student, Parent, Admin]

  /** The `allowedRoles` of each guarded child route of `/`; an empty list
      admits any signed-in user. `None` for paths without an own guard. */
  function AllowedRoles(p: Path): (r: Option<seq<Role>>)
    ensures r.Some? <==> p !in {LoginPath, RootPath, DashboardPath} && !p.OtherPath?
  {
    match p
    case AssignmentsPath => Some(AllRoles)
    case CompletedPath => Some([Student])
    case StudentsPath => Some([Parent, Admin])
    case ProgressPath => Some([Parent])
    case ParentsPath => Some([Admin])
    case SubjectsPath => Some([Student, Admin])
    case ReportsPath => Some([Admin])
    case SettingsPath => Some([Admin])
    case CalendarPath => Some([])
    case ProfilePath => Some([])
    case _ => None
  }

  /** The heading of each guarded route's placeholder content. */
  function SectionTitle(p: Path): string {
    match p
    case AssignmentsPath => "Assignments"
    case CompletedPath => "Completed Assignments"
    case StudentsPath => "Students"
    case ProgressPath => "Progress Tracking"
    case ParentsPath => "Parents"
    case SubjectsPath => "Subjects"
    case ReportsPath => "Reports"
    case SettingsPath => "Settings"
    case CalendarPath => "Calendar"
    case ProfilePath => "Profile"
    case _ => ""
  }

  /** What navigating to `p` shows: `/login` is public; everything else sits
      under the outer guard of `/`, whose index and unmatched children
      redirect to `/dashboard`. */
  function Resolve(p: Path, isAuthenticated: bool, userRole: Option<Role>): (o: Outcome)
    ensures o.Show? && o.page == LoginForm <==> p == LoginPath
  {
    if p == LoginPath then Show(LoginForm)
    else if ProtectedRoute(isAuthenticated, userRole, []) == ToLogin then Navigate(LoginPath)
    else if p == RootPath then Navigate(DashboardPath)
    else if p == DashboardPath then DashboardSelector(userRole)
    else match AllowedRoles(p)
      case None => Navigate(DashboardPath)
      case Some(allowed) =>
        match ProtectedRoute(isAuthenticated, userRole, allowed)
        case ToLogin => Navigate(LoginPath)
        case ToDashboard => Navigate(DashboardPath)
        case Allow => Show(Section(SectionTitle(p)))
  }

  /** Signed out, every path but `/login` sends the user to `/login`,
      whatever roles its own guard allows. */
  lemma SignedOutGoesToLogin(p: Path, userRole: Option<Role>)
    requires p != LoginPath
    ensures Resolve(p, false, userRole) == Navigate(LoginPath)
  {
  }

  /** Signed in with a role, a guarded route is shown exactly when its list is
      empty or holds that role, and otherwise redirects to `/dashboard`. */
  lemma GuardedRoute(p: Path, role: Role)
    requires AllowedRoles(p).Some?
    ensures var allowed := AllowedRoles(p).value;
            Resolve(p, true, Some(role)) ==
              if allowed == [] || role in allowed then Show(Section(SectionTitle(p)))
              else Navigate(DashboardPath)
  {
  }

  /** Signed in, the index route and any unmatched URL redirect to `/dashboard`. */
  lemma UnknownPathGoesToDashboard(url: string, userRole: Option<Role>)
    requires ParsePath(url) == RootPath || ParsePath(url).OtherPath?
    ensures Resolve(ParsePath(url), true, userRole) == Navigate(DashboardPath)
  {
  }

  /** Signed in without a role, the role check is skipped and guarded content is shown. */
  lemma NoRoleSkipsRoleCheck(p: Path)
    requires AllowedRoles(p).Some?
    ensures Resolve(p, true, None) == Show(Section(SectionTitle(p)))
  {
  }

  /** The route table, route by route. */
  lemma RouteRoles()
    ensures AllowedRoles(CompletedPath) == Some([Student])
    ensures AllowedRoles(ProgressPath) == Some([Parent])
    ensures AllowedRoles(ParentsPath) == AllowedRoles(ReportsPath) == AllowedRoles(SettingsPath) == Some([Admin])
    ensures AllowedRoles(StudentsPath) == Some([Parent, Admin])
    ensures AllowedRoles(SubjectsPath) == Some([Student, Admin])
    ensures AllowedRoles(AssignmentsPath) == Some([Student, Parent, Admin])
    ensures AllowedRoles(CalendarPath) == AllowedRoles(ProfilePath) == Some([])
  {
  }
}
