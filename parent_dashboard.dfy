/** The parent dashboard: the signed-in parent's children, the status counts,
    the five soonest upcoming deadlines and their dot colour and label. */
module ParentDashboard {
  import opened Wrappers
  import opened Seqs
  import opened Text
  import opened Types
  import opened Aggregates
  import MockData

  /** `user.role === 'student' && currentUser?.parentOf?.includes(user.id)`. */
  predicate IsChildOf(currentUser: Option<User>, u: User) {
    u.role == Student && currentUser.Some? && currentUser.value.parentOf.Some?
    && u.id in currentUser.value.parentOf.value
  }

  function ChildOf(currentUser: Option<User>): User -> bool {
    (u: User) => IsChildOf(currentUser, u)
  }

  /** `children`: the students the current user's `parentOf` names, in user-list order. */
  function Children(users: seq<User>, currentUser: Option<User>): (r: seq<User>)
    ensures forall i :: 0 <= i < |r| ==> IsChildOf(currentUser, r[i]) && r[i] in users
    ensures forall i :: 0 <= i < |users| && IsChildOf(currentUser, users[i]) ==> users[i] in r
    ensures currentUser.None? || currentUser.value.parentOf.None? ==> r == []
    ensures IsSubsequence(r, users)
    // a child appears as often as in `users`, anyone else not at all
    ensures forall i :: 0 <= i < |users| ==>
              multiset(r)[users[i]] == if IsChildOf(currentUser, users[i]) then multiset(users)[users[i]] else 0
  {
    var r := Filter(users, ChildOf(currentUser));
    assert forall i :: 0 <= i < |r| ==> IsChildOf(currentUser, r[i]);
    forall i | 0 <= i < |users|
      ensures multiset(r)[users[i]] == if IsChildOf(currentUser, users[i]) then multiset(users)[users[i]] else 0
    {
      FilterMultiplicity(users, ChildOf(currentUser), users[i]);
    }
    if currentUser.None? || currentUser.value.parentOf.None? then
      assert forall i :: 0 <= i < |users| ==> !ChildOf(currentUser)(users[i]);
      FilterNone(users, ChildOf(currentUser));
      r
    else r
  }

  /** The demo parent sees both demo students. */
  lemma DemoParentSeesBothStudents()
    ensures Children(MockData.Users(), Some(MockData.Users()[1])) == [MockData.Users()[2], MockData.Users()[3]]
  {
    DemoChildFilter();
  }

  lemma DemoChildFilter()
    ensures Filter(MockData.Users(), ChildOf(Some(MockData.Users()[1]))) == [MockData.Users()[2], MockData.Users()[3]]
  {
    var us := MockData.Users();
    var p := ChildOf(Some(us[1]));
    assert !p(us[0]) && !p(us[1]) && p(us[2]) && p(us[3]);
    assert us == [us[0]] + ([us[1]] + ([us[2]] + ([us[3]] + [])));
    FilterCons(us[3], [], p);
    FilterCons(us[2], [us[3]], p);
    FilterCons(us[1], [us[2], us[3]], p);
    FilterCons(us[0], [us[1], us[2], us[3]], p);
  }

  /** `upcomingDeadlines`: pending, due after `now`, soonest first, at most five. */
  function UpcomingDeadlines(sas: seq<Assignment>, now: Timestamp): (r: seq<Assignment>)
    ensures |r| <= 5
    ensures forall i :: 0 <= i < |r| ==> r[i].status == Pending && r[i].dueDate > now
    ensures SortedByDue(r)
    ensures multiset(r) <= multiset(sas)
    ensures forall x, i :: x in sas && IsUpcoming(x, now) && x !in r && 0 <= i < |r| ==>
              r[i].dueDate <= x.dueDate
    ensures |r| < 5 ==> forall x :: x in sas && IsUpcoming(x, now) ==> x in r
  {
    Upcoming(sas, now, 5)
  }

  datatype ChildSummary = ChildSummary(pending: nat, completed: nat, completionRate: Option<nat>)

  /** The figures of one child's row. They are taken from the whole list of
      student assignments; the child is not consulted. */
  function ChildRow(sas: seq<Assignment>, child: User): (r: ChildSummary)
    ensures r.pending == StatsOf(sas).pending && r.completed == StatsOf(sas).completed
    ensures r.completionRate == StatsOf(sas).completionRate
    ensures r.pending + r.completed <= |sas|
  {
    var st := StatsOf(sas);
    ChildSummary(st.pending, st.completed, st.completionRate)
  }

  /** Every child row shows the same figures. */
  lemma ChildRowsIdentical(sas: seq<Assignment>, c1: User, c2: User)
    ensures ChildRow(sas, c1) == ChildRow(sas, c2)
  {
  }

  datatype Dot = RedDot | YellowDot | GreenDot

  /** The colour of a deadline's dot. */
  function DeadlineDot(diffDays: int): (d: Dot)
    ensures d == RedDot <==> diffDays <= 1
    ensures d == YellowDot <==> 1 < diffDays <= 3
    ensures d == GreenDot <==> diffDays > 3
  {
    if diffDays <= 1 then RedDot else if diffDays <= 3 then YellowDot else GreenDot
  }

  /** The text beside a deadline. */
  function DeadlineLabel(diffDays: int): (r: string)
    ensures r == "Due today" <==> diffDays == 0
    ensures r == "Due tomorrow" <==> diffDays == 1
    ensures diffDays != 0 && diffDays != 1 ==>
              |r| == |IntToString(diffDays)| + 12 && r[..7] == "Due in " &&
              r[7..7 + |IntToString(diffDays)|] == IntToString(diffDays) &&
              r[7 + |IntToString(diffDays)|..] == " days"
  {
    if diffDays == 0 then "Due today"
    else if diffDays == 1 then "Due tomorrow"
    else
      var r := "Due in " + IntToString(diffDays) + " days";
      assert r[|r| - 1] == 's' && r[4] == 'i';
      r
  }

  /** The listed deadlines are all at least one day away, so neither
      "Due today" nor a past-due count is shown for them. */
  lemma DeadlinesAreInTheFuture(sas: seq<Assignment>, now: Timestamp)
    ensures forall a :: a in UpcomingDeadlines(sas, now) ==>
              DiffDays(a.dueDate, now) >= 1 && DeadlineLabel(DiffDays(a.dueDate, now)) != "Due today"
  {
    forall a | a in UpcomingDeadlines(sas, now)
      ensures DiffDays(a.dueDate, now) >= 1
    {
      FutureIsAtLeastOneDay(a.dueDate, now);
    }
  }

  /** The same two readings of the clock as on the student dashboard: a
      deadline that fell due between the filter's reading and the row's is
      labelled "Due today". */
  lemma DueTodayAtLaterRowReading(sas: seq<Assignment>, filterNow: Timestamp, rowNow: Timestamp, a: Assignment)
    requires a in UpcomingDeadlines(sas, filterNow)
    requires a.dueDate <= rowNow < a.dueDate + DayMillis
    ensures a.dueDate > filterNow
    ensures DiffDays(a.dueDate, rowNow) == 0 && DeadlineLabel(DiffDays(a.dueDate, rowNow)) == "Due today"
  {
  }
}
