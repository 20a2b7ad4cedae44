# EduTrack assignment tracker — a Dafny model

EduTrack is a single-page school application. Students, parents and
administrators sign in with an email address. Each role then sees its own
dashboard, built from a fixed table of users, assignments, per-student
assignment data and notifications.

This project models the decision logic of that application:

- the session state (sign-in by case-insensitive email, sign-out, restoring a
  stored session);
- the route guard, the role-based dashboard dispatch and the route table;
- the per-role navigation links;
- the sign-in form's submit handler;
- the header's notification badge and its two mutually exclusive drop-down menus;
- the three dashboards' counts, rounded percentages, "upcoming" selections,
  subject lists and days-left labels and colours;
- the assignment list's search and filters, the card and detail view rules,
  and the avatar's initials and colour;
- the demo data the application runs on.

Conventions of the model:

- Dates are integer milliseconds since the Unix epoch. The ISO strings of
  the demo data were converted by hand.
- "Now" is always a parameter.
- Strings are `seq<char>`, with ASCII-only case mapping.
- `T | null`, `T | undefined` and optional fields are `Option<T>`.
- A router redirect (`<Navigate to=...>`) is the value `Navigate(path)`.
- `Math.round(100 * k / n)` is exact round-half-up over the integers. The
  NaN that the application computes for `n = 0` is `None`.
- A student assignment is an `Assignment` whose `student` field holds the
  progress, submission, feedback and grade fields. The application's
  `'progress' in assignment` test is `student.Some?`.

Restoring a stored session is an explicit step (`RestoreSession`). In the
application it is an effect that runs after the first render. Until it runs,
the route guard sees a signed-out state and redirects to `/login`.

The dashboards' figures are computed over the whole demo list, exactly as the
application does:

- the student dashboard does not narrow its list to the signed-in student;
- every child row on the parent dashboard shows the same figures (see
  `ParentDashboard.ChildRowsIdentical`).

For a single reading of the clock, the items in the upcoming lists are all
due strictly after now. Their days-left count is then at least 1, so the "Due
today!" branch of the label is not taken for them (see
`StudentDashboard.UpcomingNeverDueToday`). The application reads the clock
once in the filter and again in each row; an item that falls due between the
two readings is labelled "Due today!" (see
`StudentDashboard.DueTodayAtLaterRowReading`).

## Model

| member | source | states |
|---|---|---|
| Seqs.Filter | src/pages/StudentDashboard.tsx:16-18 | `filter`: every kept element satisfies the predicate and comes from the input, every input element that satisfies it is kept, the order is kept (an order-preserving subsequence), and the result is no longer than the input |
| Seqs.FilterMultiplicity | src/pages/StudentDashboard.tsx:16-18 | a value that satisfies the predicate is kept exactly as many times as it occurs in the input, and any other value not at all |
| Seqs.FilterLength | src/components/layout/Header.tsx:15 | `filter(p).length` equals the number of elements that satisfy `p`, counted one by one |
| Seqs.FilterIdempotent | src/components/assignments/AssignmentList.tsx:21-28 | filtering a filtered list again with the same predicate changes nothing |
| Seqs.FilterAll | src/components/assignments/AssignmentList.tsx:22-27 | a predicate true of every element keeps the whole list |
| Seqs.FilterNone | src/components/assignments/AssignmentList.tsx:25 | a predicate false of every element keeps nothing |
| Seqs.FindFirst | src/components/assignments/AssignmentList.tsx:31 | `find` stops at the first index whose element satisfies the predicate; it finds nothing exactly when no element does |
| Seqs.Take | src/pages/StudentDashboard.tsx:28 | `slice(0, k)` keeps the first min(k, n) elements unchanged |
| Seqs.Distinct | src/pages/StudentDashboard.tsx:31 | `Array.from(new Set(...))` holds no duplicates, holds exactly the values of the input, and lists them in the order of their first occurrence in the input; it is no longer than the input |
| Text.LowerChar | src/context/AuthContext.tsx:43 | ASCII `toLowerCase` of one character: upper-case letters move down by 32, everything else is unchanged, and no upper-case letter remains |
| Text.UpperChar | src/components/ui/Avatar.tsx:20 | ASCII `toUpperCase` of one character, the mirror of `LowerChar` |
| Text.Lower | src/components/assignments/AssignmentList.tsx:22-23 | lowercasing keeps the length and maps every character |
| Text.Upper | src/components/ui/Avatar.tsx:20 | uppercasing keeps the length and maps every character |
| Text.LowerIdempotent | src/context/AuthContext.tsx:43 | lowercasing twice equals lowercasing once, so comparing lowercased strings ignores case consistently |
| Text.UpperDistributes | src/components/ui/Avatar.tsx:19-20 | uppercasing a concatenation uppercases each piece |
| Text.Contains | src/components/assignments/AssignmentList.tsx:22-23 | `includes` holds exactly when the substring occurs at some index |
| Text.ContainsEmpty | src/components/assignments/AssignmentList.tsx:22-23 | every string includes the empty search term |
| Text.Split | src/components/ui/Avatar.tsx:17 | `split(sep)` yields at least one part and no part contains the separator |
| Text.JoinSplit | src/components/ui/Avatar.tsx:17 | joining the parts with the separator gives the string back |
| Text.SplitWord | src/components/ui/Avatar.tsx:17 | a word without the separator splits into itself alone |
| Text.SplitFirstWord | src/components/ui/Avatar.tsx:17 | a word followed by the separator is split off as the first part |
| Text.DigitChar | src/pages/StudentDashboard.tsx:119 | a digit value renders as a decimal digit character |
| Text.NatToString | src/pages/StudentDashboard.tsx:119 | `${n}` of a natural number is a non-empty string of digits with no leading zero |
| Text.NatToStringRoundTrip | src/pages/StudentDashboard.tsx:119 | reading the rendered digits back gives the number |
| Text.IntToString | src/pages/StudentDashboard.tsx:119 | `${n}` of any integer starts with a minus sign exactly when the integer is negative; the digits that follow read back as its magnitude |
| Types.StatusName | src/types/index.ts:20 | each status has a non-empty stored name |
| Aggregates.StatusPartition | src/pages/StudentDashboard.tsx:16-21 | the pending, completed and late counts add up to the length of the list |
| Aggregates.Percent | src/pages/StudentDashboard.tsx:22 | the result is the nearest integer to 100·k/n with halves rounded up; no value when n is 0; at most 100 when k ≤ n |
| Aggregates.StatsOf | src/pages/StudentDashboard.tsx:16-22 | the stat cards: the total is the list length, the three status counts add up to it, and the completion rate is defined exactly for a non-empty list, lies in [0,100] and rounds 100·completed/total |
| Aggregates.SubjectList | src/pages/StudentDashboard.tsx:31 | `map(a => a.subject)`: one subject per assignment, at the same index |
| Aggregates.DiffDays | src/pages/StudentDashboard.tsx:81-84 | the whole days from now to due, rounded up: the smallest d with due − now ≤ d days |
| Aggregates.FutureIsAtLeastOneDay | src/pages/StudentDashboard.tsx:26 | anything due strictly after now is at least one day away |
| Aggregates.InsertByDue | src/pages/StudentDashboard.tsx:27 | inserting into a list sorted by due date keeps it sorted and adds exactly that element |
| Aggregates.SortByDue | src/pages/StudentDashboard.tsx:27 | the sorted list is ascending by due date and a permutation of the input |
| Aggregates.Upcoming | src/pages/StudentDashboard.tsx:25-28 | at most k items; each is pending and due after now; ascending by due date; drawn from the input; nothing left out is due sooner than anything kept; fewer than k only when nothing qualifying is left out |
| Aggregates.SubjectsOf | src/pages/StudentDashboard.tsx:31 | the distinct subjects: no duplicates, each used by some assignment, every assignment's subject included, in the order each subject is first used, no more than the assignments |
| Aggregates.SubjectNonEmpty | src/pages/StudentDashboard.tsx:166-168 | a listed subject has at least one assignment, so its rate never divides by zero |
| Aggregates.SubjectCountsCover | src/pages/AdminDashboard.tsx:126-128 | when every assignment's subject is listed exactly once, the per-subject counts add up to the number of assignments |
| MockData.Users | src/data/mockData.ts:4-32 | the four demo users |
| MockData.UserIdsUnique | src/data/mockData.ts:4-32 | user ids are pairwise distinct |
| MockData.EmailsUniqueIgnoringCase | src/data/mockData.ts:4-32 | emails are pairwise distinct even after lowercasing |
| MockData.ParentLinksConsistent | src/data/mockData.ts:11-31 | every id a parent lists is a student naming that parent back, every student's parent lists that student, and only the two demo students are ever listed |
| MockData.Assignments | src/data/mockData.ts:35-86 | five demo assignments with distinct ids, all created by the admin, none carrying student fields |
| MockData.WithProgress | src/data/mockData.ts:89-95 | a student assignment copies every assignment field, adds the given progress, and has submission time, feedback and grade exactly when the status is completed |
| MockData.StudentAssignments | src/data/mockData.ts:89-95 | same length, order, ids and statuses as the assignments; everything but the student fields copied; progress in [0,99]; submission, feedback and grade present exactly when completed |
| MockData.Notifications | src/data/mockData.ts:98-131 | four notifications with distinct ids, each addressed to an existing user |
| AuthContext.FindUserByEmail | src/context/AuthContext.tsx:43 | the lookup finds a user exactly when some user's email equals the given one ignoring case, and then the first such user |
| AuthContext.LookupUnambiguous | src/context/AuthContext.tsx:43 | on the demo users, a matching email determines the user found |
| AuthContext.AuthProvider.constructor | src/context/AuthContext.tsx:24-25 | the provider starts signed out over the demo users, with the given stored session |
| AuthContext.AuthProvider.RestoreSession | src/context/AuthContext.tsx:28-35 | a stored user becomes the current user and the session is signed in, without checking it against the users; with nothing stored nothing changes |
| AuthContext.AuthProvider.Login | src/context/AuthContext.tsx:38-53 | succeeds exactly when some user's email matches ignoring case, whatever the password; on success the first match becomes current, signed in and stored; on failure nothing changes; signed-in ⇔ a current user is kept |
| AuthContext.AuthProvider.Logout | src/context/AuthContext.tsx:55-59 | from any state: no current user, signed out, nothing stored |
| AuthContext.AuthProvider.UserRole | src/context/AuthContext.tsx:61 | the current user's role when there is one, none otherwise |
| App.ProtectedRoute | src/App.tsx:11-26 | signed out always goes to sign-in; a signed-in user goes to the dashboard exactly when the list is non-empty, a role is known and it is not listed; otherwise the content is shown |
| App.DashboardSelector | src/App.tsx:29-42 | each role gets its own dashboard, and no role goes to sign-in |
| App.ParsePath | src/App.tsx:50-156 | the URL a location is matched from is the text of that location |
| App.ParsePathText | src/App.tsx:50-156 | each known location is matched by its own URL |
| App.AllowedRoles | src/App.tsx:62-153 | exactly the child routes of `/` other than the index and `dashboard` carry their own role list |
| App.Resolve | src/App.tsx:48-157 | only `/login` shows the sign-in form |
| App.SignedOutGoesToLogin | src/App.tsx:17-19 | signed out, every location but `/login` redirects to `/login`, whatever its role list |
| App.GuardedRoute | src/App.tsx:21-23 | signed in with a role, a guarded route is shown exactly when its list is empty or holds the role, and otherwise redirects to `/dashboard` |
| App.UnknownPathGoesToDashboard | src/App.tsx:53-157 | signed in, the index route and every unmatched URL redirect to `/dashboard` |
| App.NoRoleSkipsRoleCheck | src/App.tsx:21 | signed in without a role, every guarded route is shown |
| App.RouteRoles | src/App.tsx:62-153 | the role list of each guarded route |
| Sidebar.NavigationItems | src/components/layout/Sidebar.tsx:12-36 | each role's list is non-empty, starts with `/dashboard` and has unique paths |
| Sidebar.Items | src/components/layout/Sidebar.tsx:38 | no role gives no links; a role gives its own list |
| Sidebar.LinksPassTheGuard | src/components/layout/Sidebar.tsx:12-38 | every link a role sees is shown to that role by the route guard, not redirected |
| Sidebar.LinksAreRoutes | src/components/layout/Sidebar.tsx:12-36 | every link is the dashboard or a guarded route |
| LoginPage.ErrorField | src/pages/Login.tsx:23 | destructuring `error` from a boolean yields undefined |
| LoginPage.SubmitOutcome | src/pages/Login.tsx:22-32 | as written: a rejection shows the retry message; a truthy `error` shows only "Invalid email or password"; otherwise the form navigates to `/dashboard`, which every boolean reply does |
| LoginPage.CheckedOutcome | src/pages/Login.tsx:22-32 | corrected: navigate to `/dashboard` exactly on success; show "Invalid email or password" exactly on a failed reply; a rejection shows the retry message |
| LoginPage.FailedSignInBouncesBack | src/pages/Login.tsx:23-29 | as written, a failed sign-in navigates to `/dashboard` with no message and the guard sends the user back to `/login`; the corrected outcome shows the message |
| LoginPage.LoginForm.constructor | src/pages/Login.tsx:9-12 | empty fields, no message, not loading |
| LoginPage.LoginForm.SetEmail | src/pages/Login.tsx:60 | sets the email and nothing else |
| LoginPage.LoginForm.SetPassword | src/pages/Login.tsx:69 | sets the password and nothing else |
| LoginPage.LoginForm.BeginSubmit | src/pages/Login.tsx:19-20 | clears the message and sets loading |
| LoginPage.LoginForm.FinishSubmit | src/pages/Login.tsx:22-35 | leaves the outcome's message and navigation and clears loading on every path |
| LoginPage.LoginForm.HandleSubmit | src/pages/Login.tsx:17-36 | as written: the session signs in exactly when the email matches, yet the form always navigates to `/dashboard` with no message and ends not loading; the typed email and password stay; on a match the first matching user becomes current, signed in and stored; with no match the current user, the flag and the stored session are unchanged |
| LoginPage.LoginForm.HandleSubmitChecked | src/pages/Login.tsx:17-36 | corrected: navigates exactly when the email matches (then signed in), otherwise shows "Invalid email or password"; ends not loading; the typed email and password stay; on a match the first matching user becomes current, signed in and stored; with no match the current user, the flag and the stored session are unchanged |
| Header.UserNotifications | src/components/layout/Header.tsx:14 | exactly the notifications addressed to the current user, in order, each as often as it occurs in the list; none when signed out |
| Header.UnreadCount | src/components/layout/Header.tsx:15 | the number of the user's notifications that are unread, counted one by one; at most the number of the user's notifications, and zero exactly when all of them are read |
| Header.ShowsBadge | src/components/layout/Header.tsx:48 | the badge is drawn exactly when some notification of the user is unread |
| Header.AvatarName | src/components/layout/Header.tsx:91 | the user's name when non-empty, "User" otherwise |
| Header.HeaderView.constructor | src/components/layout/Header.tsx:11-12 | both menus start closed |
| Header.HeaderView.ToggleNotifications | src/components/layout/Header.tsx:42-45 | flips the notification menu and closes the profile menu, so the two are never open together |
| Header.HeaderView.ToggleProfile | src/components/layout/Header.tsx:86-89 | flips the profile menu and closes the notification menu, so the two are never open together |
| Header.HeaderView.OpenProfile | src/components/layout/Header.tsx:105 | goes to `/profile` |
| Header.HeaderView.HandleLogout | src/components/layout/Header.tsx:17-20 | signs out and empties the stored session, then goes to `/login`, which then shows the sign-in form |
| Header.ProfileOpenToEveryRole | src/App.tsx:146-153 | the profile page the menu links to is shown to every signed-in role |
| StudentDashboard.UpcomingAssignments | src/pages/StudentDashboard.tsx:25-28 | at most three, each pending and due after now, soonest first, nothing sooner left out, all of them when fewer than three |
| StudentDashboard.SubjectRate | src/pages/StudentDashboard.tsx:166-168 | defined exactly when the subject has assignments; then the completed share of the subject's assignments, times 100, rounded half up, and at most 100 |
| StudentDashboard.ListedSubjectsHaveRates | src/pages/StudentDashboard.tsx:165-168 | every listed subject has a defined rate in [0,100] |
| StudentDashboard.DueLabel | src/pages/StudentDashboard.tsx:115-119 | "Due today!" exactly for 0, "Due tomorrow!" exactly for 1, and otherwise the decimal count followed by " days left" |
| StudentDashboard.DueTone | src/pages/StudentDashboard.tsx:112-114 | red exactly for at most 1 day, yellow exactly for 2 or 3, gray exactly beyond 3 |
| StudentDashboard.ToneMonotone | src/pages/StudentDashboard.tsx:112-114 | a later due date has no more days' urgency and never a more urgent colour |
| StudentDashboard.UpcomingTonesDescend | src/pages/StudentDashboard.tsx:112-114 | down the upcoming list the colours never become more urgent |
| StudentDashboard.UpcomingNeverDueToday | src/pages/StudentDashboard.tsx:115-119 | with one reading of the clock for the filter and the label, an upcoming item is at least one day away, so it is not labelled "Due today!" |
| StudentDashboard.DueTodayAtLaterRowReading | src/pages/StudentDashboard.tsx:81-116 | the row reads the clock again after the filter (line 26): an upcoming item that falls due before the row's reading, less than a day before it, counts 0 days and is labelled "Due today!" |
| ParentDashboard.Children | src/pages/ParentDashboard.tsx:16-18 | exactly the students the current user's `parentOf` names, in user order, each as often as in the user list; none when signed out or when `parentOf` is absent |
| ParentDashboard.DemoParentSeesBothStudents | src/pages/ParentDashboard.tsx:16-18 | the demo parent's children are the two demo students |
| ParentDashboard.UpcomingDeadlines | src/pages/ParentDashboard.tsx:27-30 | at most five, each pending and due after now, soonest first, nothing sooner left out, all of them when fewer than five |
| ParentDashboard.ChildRow | src/pages/ParentDashboard.tsx:79-82 | a child's pending and completed counts and rate are those of the whole list |
| ParentDashboard.ChildRowsIdentical | src/pages/ParentDashboard.tsx:79-82 | every child row shows the same figures |
| ParentDashboard.DeadlineDot | src/pages/ParentDashboard.tsx:147-149 | red exactly for at most 1 day, yellow exactly for 2 or 3, green exactly beyond 3 |
| ParentDashboard.DeadlineLabel | src/pages/ParentDashboard.tsx:155-159 | "Due today" exactly for 0, "Due tomorrow" exactly for 1, and otherwise "Due in ", the decimal count, " days" |
| ParentDashboard.DeadlinesAreInTheFuture | src/pages/ParentDashboard.tsx:139-159 | with one reading of the clock for the filter and the label, a listed deadline is at least one day away, so it is not labelled "Due today" |
| ParentDashboard.DueTodayAtLaterRowReading | src/pages/ParentDashboard.tsx:140-156 | the row reads the clock again after the filter (line 28): a listed deadline that falls due before the row's reading, less than a day before it, counts 0 days and is labelled "Due today" |
| AdminDashboard.RolePartition | src/pages/AdminDashboard.tsx:14-15 | the student, parent and admin counts add up to the number of users |
| AdminDashboard.CountsOf | src/pages/AdminDashboard.tsx:14-16 | the student and parent counts are no more than the users, the subject count is at most the assignment count and zero exactly for no assignments |
| AdminDashboard.DemoRoleCounts | src/pages/AdminDashboard.tsx:14-15 | on the demo users: two students and one parent |
| AdminDashboard.StatusBar | src/pages/AdminDashboard.tsx:92-103 | no widths for an empty list; otherwise the completed, pending and late widths are each 100 times that status's count over the number of assignments, and together they fill 100 % of the bar |
| AdminDashboard.Row | src/pages/AdminDashboard.tsx:127-128 | a subject's count, and its share of all assignments times 100 rounded half up; at most 100; none for no assignments |
| AdminDashboard.Rows | src/pages/AdminDashboard.tsx:126-128 | one line per given subject, in order |
| AdminDashboard.SubjectDistribution | src/pages/AdminDashboard.tsx:126-128 | row i is the line of the i-th distinct subject in order of first use, with a positive count and a defined percentage in [0,100]; no subject twice |
| AdminDashboard.DistributionCoversAll | src/pages/AdminDashboard.tsx:126-134 | the per-subject counts add up to the number of assignments |
| AdminDashboard.RecentStudents | src/pages/AdminDashboard.tsx:24-26 | the first min(3, number of students) students in user order, with no date ordering |
| AdminDashboard.FirstPending | src/pages/AdminDashboard.tsx:216 | the first min(5, number pending) pending assignments in list order, neither filtered by date nor sorted |
| AssignmentList.FilteredAssignments | src/components/assignments/AssignmentList.tsx:21-28 | exactly the assignments passing the search and both filters, in order, each as often as in the list |
| AssignmentList.NoFiltersKeepAll | src/components/assignments/AssignmentList.tsx:22-25 | with an empty search and both filters on "All", the list is unchanged |
| AssignmentList.FilteringIdempotent | src/components/assignments/AssignmentList.tsx:21-28 | filtering the filtered list again changes nothing |
| AssignmentList.SearchIgnoresCase | src/components/assignments/AssignmentList.tsx:22-23 | the search term matches the same items as its lowercased form |
| AssignmentList.UnknownStatusKeepsNothing | src/components/assignments/AssignmentList.tsx:25 | a status value that is none of the three names hides every item |
| AssignmentList.FindById | src/components/assignments/AssignmentList.tsx:30-33 | the first assignment with that id, or none exactly when no assignment has it |
| AssignmentList.VisibleCardsOpen | src/components/assignments/AssignmentList.tsx:30-33 | the id of any card on screen opens an assignment with that id |
| AssignmentList.ListView.constructor | src/components/assignments/AssignmentList.tsx:13-16 | empty search and filters, no assignment open |
| AssignmentList.ListView.Visible | src/components/assignments/AssignmentList.tsx:21-28 | the cards on screen are exactly the assignments passing the current search and filters, as an order-preserving subsequence, each passing record as often as it occurs |
| AssignmentList.ListView.SubjectOptions | src/components/assignments/AssignmentList.tsx:19 | the subject options: no duplicates, each some assignment's subject, every assignment's subject included, in order of first use |
| AssignmentList.ListView.SetSearchTerm | src/components/assignments/AssignmentList.tsx:50 | sets the search term, nothing else |
| AssignmentList.ListView.SetFilterSubject | src/components/assignments/AssignmentList.tsx:59 | sets the subject filter, nothing else |
| AssignmentList.ListView.SetFilterStatus | src/components/assignments/AssignmentList.tsx:75 | sets the status filter, nothing else |
| AssignmentList.ListView.ViewDetails | src/components/assignments/AssignmentList.tsx:30-33 | the open assignment becomes the first with that id, or none |
| AssignmentList.ListView.CloseModal | src/components/assignments/AssignmentList.tsx:109 | closes the detail view, filters unchanged |
| AssignmentCard.StatusProps | src/components/assignments/AssignmentCard.tsx:26-30 | pending is a warning, completed a success, late a danger, and the caption is the status name capitalised |
| AssignmentCard.DueText | src/components/assignments/AssignmentCard.tsx:52-58 | "Past due" exactly when late, "Completed" exactly when completed, "Due today" exactly when pending with at most 0 days, otherwise the decimal count with " day left" for 1 and " days left" beyond |
| AssignmentCard.DueTextReadsBack | src/components/assignments/AssignmentCard.tsx:58 | the count in a days-left text reads back as the number of days |
| AssignmentCard.ViewDetailsClick | src/components/assignments/AssignmentCard.tsx:66 | the card's own id reaches the callback exactly when one is given |
| AssignmentModal.View | src/components/assignments/AssignmentModal.tsx:16-126 | the badge is the card's; feedback and grade appear exactly for a student assignment with a non-empty value; progress exactly for a student assignment; "Mark as Complete" exactly when pending |
| AssignmentModal.PlainAssignmentHasNoStudentParts | src/components/assignments/AssignmentModal.tsx:16-17 | a plain assignment shows no feedback, grade or progress |
| AssignmentModal.DemoStudentParts | src/components/assignments/AssignmentModal.tsx:64-114 | on the demo student data, feedback and grade appear exactly for completed items and progress always, within [0,99] |
| Avatar.FirstChars | src/components/ui/Avatar.tsx:18-19 | no more characters than parts, each the first character of some non-empty part (`Avatar.FirstCharsOfWords` states which characters) |
| Avatar.FirstCharsOfWords | src/components/ui/Avatar.tsx:18-19 | one character per non-empty part: the first character of each non-empty part, in order |
| Avatar.FirstCharsSkipEmpty | src/components/ui/Avatar.tsx:17-19 | empty parts from repeated spaces contribute nothing |
| Avatar.Initials | src/components/ui/Avatar.tsx:16-21 | the upper-cased first characters of the first two non-empty space-separated words, in order (fewer when there are fewer words), so at most two characters and no lower-case letter |
| Avatar.OneWordInitial | src/components/ui/Avatar.tsx:16-21 | a single word gives its upper-cased first letter |
| Avatar.TwoWordInitials | src/components/ui/Avatar.tsx:16-21 | two words give both upper-cased first letters, in order |
| Avatar.DemoInitials | src/components/ui/Avatar.tsx:16-21 | "Student One" gives "SO" |
| Avatar.CodeSumAppend | src/components/ui/Avatar.tsx:40-42 | the code sum of a concatenation is the sum of the pieces' code sums |
| Avatar.CodeSum | src/components/ui/Avatar.tsx:40-42 | the sum of the character codes: zero for the empty name, the code itself for one character, and never below any one character's code |
| Avatar.ColorIndex | src/components/ui/Avatar.tsx:40-42 | a valid colour index, congruent to the code sum modulo 7 |
| Avatar.Render | src/components/ui/Avatar.tsx:44-63 | a non-empty source gives the picture alone; otherwise the colour chosen by the name and its initials |

## Left out

- The data hooks (`src/hooks/useAssignments.ts`, `src/hooks/useProfiles.ts`) are not part of this model. They are network queries through a database client whose code is not available.
- The type files (`src/types/index.ts`, `src/types/supabase.ts`) carry no behaviour. The first became the datatypes in `types.dfy`; the second describes the database client only.
- Pure presentation is not modelled: `StatCard`, `Input`, `AppLayout`, CSS classes, icons, the avatar sizes, and the fixed texts of the admin "Recent Activity" and parent "Contact Teacher" cards.
- The clock and the locale are not modelled. "Now" is a parameter; `toLocaleDateString` and `toLocaleTimeString` are left out.
- Floating point is not modelled. Percentages are exact round-half-up; the status bar widths are exact fractions; no width is rendered as a CSS string.
- `Math.random` in the demo data is not modelled. The drawn progress values are a parameter, each in [0,99].
- Timers and promises are not modelled. The 800 ms delay before a sign-in completes is left out, and so is its asynchrony.
- Local storage serialisation is not modelled. The stored session is an `Option<User>`, so the JSON encoding and decoding are left out.
- React rendering order is not modelled. Restoring the session is an explicit step instead of an effect.
- Unicode case mapping is not modelled; case mapping is ASCII only.
- ColorIndex: a Dafny `char` is a whole Unicode code point, while `split('')`, `charCodeAt(0)` and `part[0]` work on UTF-16 code units. For a name with characters outside the Basic Multilingual Plane (an emoji, say), the application sums the two surrogate halves. The model sums the code point instead, so it can pick another colour. `Avatar.CodeSum`, `Avatar.FirstChars` and `Avatar.Initials` have the same gap. Names made of Basic Multilingual Plane characters agree.
- App.Resolve: react-router matches paths case-insensitively and ignores a trailing slash. The model matches the exact URL text only.
- StudentDashboard.UpcomingNeverDueToday: the filter (src/pages/StudentDashboard.tsx:26) and each row (line 82) read the clock separately; this lemma and `StudentDashboard.UpcomingTonesDescend` use one `now` for both, so they hold for a single reading only. `StudentDashboard.DueTodayAtLaterRowReading` states what two readings allow.
- ParentDashboard.DeadlinesAreInTheFuture: likewise, the filter (src/pages/ParentDashboard.tsx:28) and each row (line 141) read the clock separately; the lemma uses one `now`. `ParentDashboard.DueTodayAtLaterRowReading` states what two readings allow.
- Aggregates.SortByDue: the sort is stable, so equal due dates keep their order. That stability is not stated.
- AuthContext.AuthProvider.RestoreSession: the stored user may be any `User` value. A malformed stored string, which would make `JSON.parse` throw, is not modelled.
- LoginPage.LoginForm.HandleSubmit: the modelled `login` cannot throw, so the retry-message path is reached only through `FinishSubmit` with a `Rejected` reply.
- Header: the header's search box has no behaviour. The notification list's date text is left out.
- The modal's formatted due and creation dates are left out. So are its close buttons, beyond `ListView.CloseModal`.

## Findings

| source | as written | input that shows it | evidently intended | confidence | as-written member | corrected member |
|---|---|---|---|---|---|---|
| src/pages/Login.tsx:23-29 | `const { error } = await login(...)` destructures a boolean (the `login` of src/context/AuthContext.tsx:38 resolves to `true` or `false`), so `error` is always undefined and the form navigates to `/dashboard` whether or not sign-in succeeded | an email no user has, e.g. `nobody@example.com`: `login` resolves `false`, the form navigates to `/dashboard`, and the route guard sends the user back to `/login` with no message | on `false`, stay on the form and show "Invalid email or password"; navigate only on `true` | high, not executed | LoginPage.FailedSignInBouncesBack | LoginPage.CheckedOutcome |
