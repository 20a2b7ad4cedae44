/** The admin dashboard: user and subject counts, the status bar, the subject
    distribution, the first students and the first pending assignments. */
module AdminDashboard {
  import opened Wrappers
  import opened Seqs
  import opened Types
  import opened Aggregates
  import MockData

  /** `users.filter(u => u.role === r).length`. */
  function RoleCount(users: seq<User>, r: Role): nat {
    |Filter(users, RoleIs(r))|
  }

  /** Every user has exactly one role. */
  lemma {:induction false} RolePartition(users: seq<User>)
    ensures RoleCount(users, Student) + RoleCount(users, Parent) + RoleCount(users, Admin) == |users|
    decreases |users|
  {
    if users != [] {
      RolePartition(users[1..]);
      assert [users[0]] + users[1..] == users;
      FilterCons(users[0], users[1..], RoleIs(Student));
      FilterCons(users[0], users[1..], RoleIs(Parent));
      FilterCons(users[0], users[1..], RoleIs(Admin));
    }
  }

  datatype Counts = Counts(studentCount: nat, parentCount: nat, subjectCount: nat, assignmentCount: nat)

  /** The four stat cards. */
  function CountsOf(users: seq<User>, assignments: seq<Assignment>): (c: Counts)
    ensures c.studentCount + c.parentCount <= |users|
    ensures c.subjectCount <= c.assignmentCount == |assignments|
    ensures c.subjectCount == 0 <==> assignments == []
    ensures c.studentCount == RoleCount(users, Student) && c.parentCount == RoleCount(users, Parent)
    ensures c.subjectCount == |SubjectsOf(assignments)|
  {
    RolePartition(users);
    assert assignments != [] ==> assignments[0].subject in SubjectsOf(assignments);
    Counts(RoleCount(users, Student), RoleCount(users, Parent), |SubjectsOf(assignments)|, |assignments|)
  }

  /** On the demo data: two students, one parent. */
  lemma DemoRoleCounts()
    ensures RoleCount(MockData.Users(), Student) == 2 && RoleCount(MockData.Users(), Parent) == 1
  {
    DemoStudents();
    DemoParents();
  }

  lemma DemoStudents()
    ensures Filter(MockData.Users(), RoleIs(Student)) == [MockData.Users()[2], MockData.Users()[3]]
  {
    var us := MockData.Users();
    assert us == [us[0]] + ([us[1]] + ([us[2]] + ([us[3]] + [])));
    FilterCons(us[3], [], RoleIs(Student));
    FilterCons(us[2], [us[3]], RoleIs(Student));
    FilterCons(us[1], [us[2], us[3]], RoleIs(Student));
    FilterCons(us[0], [us[1], us[2], us[3]], RoleIs(Student));
  }

  lemma DemoParents()
    ensures Filter(MockData.Users(), RoleIs(Parent)) == [MockData.Users()[1]]
  {
    var us := MockData.Users();
    assert us == [us[0]] + ([us[1]] + ([us[2]] + ([us[3]] + [])));
    FilterCons(us[3], [], RoleIs(Parent));
    FilterCons(us[2], [us[3]], RoleIs(Parent));
    FilterCons(us[1], [us[2], us[3]], RoleIs(Parent));
    FilterCons(us[0], [us[1], us[2], us[3]], RoleIs(Parent));
  }

  /** The percentage `num / den`, kept as an exact fraction. */
  datatype Fraction = Fraction(num: nat, den: nat)

  datatype Widths = Widths(completed: Fraction, pending: Fraction, late: Fraction)

  /** `(k / n) * 100` over exact rationals. */
  function Share(k: nat, n: nat): (r: Fraction)
    requires n > 0
    ensures r.den == n && r.num == 100 * k
    ensures k <= n ==> r.num <= 100 * r.den
  {
    Fraction(100 * k, n)
  }

  /** The three segments of the status bar, as percentages of the bar: over a
      common denominator, the three widths add up to the whole bar. `None`
      stands for the NaN widths of an empty list. */
  function StatusBar(assignments: seq<Assignment>): (w: Option<Widths>)
    ensures w.None? <==> assignments == []
    ensures w.Some? ==> w.value.completed.den == w.value.pending.den == w.value.late.den == |assignments|
    ensures w.Some? ==> w.value.completed.num + w.value.pending.num + w.value.late.num == 100 * |assignments|
    // each segment is 100 times its own status's share of the list
    ensures w.Some? ==> w.value.completed.num == 100 * StatusCount(assignments, Completed)
    ensures w.Some? ==> w.value.pending.num == 100 * StatusCount(assignments, Pending)
    ensures w.Some? ==> w.value.late.num == 100 * StatusCount(assignments, Late)
  {
    if assignments == [] then None
    else
      var n := |assignments|;
      StatusPartition(assignments);
      Some(Widths(Share(StatusCount(assignments, Completed), n), Share(StatusCount(assignments, Pending), n),
                  Share(StatusCount(assignments, Late), n)))
  }

  datatype SubjectRow = SubjectRow(subject: string, count: nat, percentage: Option<nat>)

  /** One line of the subject distribution. */
  function Row(assignments: seq<Assignment>, subject: string): (r: SubjectRow)
    ensures r.subject == subject && r.count == SubjectCount(assignments, subject)
    ensures r.percentage.None? <==> assignments == []
    ensures r.percentage.Some? ==> r.percentage.value <= 100
    // the count's share of all assignments, rounded half up
    ensures r.percentage == Percent(r.count, |assignments|)
    ensures r.percentage.Some? ==>
              2 * |assignments| * r.percentage.value <= 200 * r.count + |assignments|
                < 2 * |assignments| * r.percentage.value + 2 * |assignments|
  {
    SubjectRow(subject, SubjectCount(assignments, subject), Percent(SubjectCount(assignments, subject), |assignments|))
  }

  function Rows(assignments: seq<Assignment>, subjects: seq<string>): (rows: seq<SubjectRow>)
    ensures |rows| == |subjects|
    ensures forall i :: 0 <= i < |rows| ==> rows[i] == Row(assignments, subjects[i])
    decreases |subjects|
  {
    if subjects == [] then [] else [Row(assignments, subjects[0])] + Rows(assignments, subjects[1..])
  }

  /** The subject distribution: one row per distinct subject, in order of first use. */
  function SubjectDistribution(assignments: seq<Assignment>): (rows: seq<SubjectRow>)
    ensures |rows| == |SubjectsOf(assignments)|
    ensures forall i :: 0 <= i < |rows| ==> rows[i].subject in SubjectsOf(assignments) && rows[i].count > 0
    ensures forall i :: 0 <= i < |rows| ==> rows[i].percentage.Some? && rows[i].percentage.value <= 100
    ensures forall i, j :: 0 <= i < j < |rows| ==> rows[i].subject != rows[j].subject
    // the rows follow the subjects' order of first use
    ensures forall i :: 0 <= i < |rows| ==> rows[i] == Row(assignments, SubjectsOf(assignments)[i])
  {
    var subjects := SubjectsOf(assignments);
    var rows := Rows(assignments, subjects);
    forall i | 0 <= i < |rows| ensures rows[i].count > 0 {
      SubjectNonEmpty(assignments, subjects[i]);
    }
    rows
  }

  function RowTotal(rows: seq<SubjectRow>): nat
    decreases |rows|
  {
    if rows == [] then 0 else rows[0].count + RowTotal(rows[1..])
  }

  lemma {:induction false} RowsTotal(assignments: seq<Assignment>, subjects: seq<string>)
    ensures RowTotal(Rows(assignments, subjects)) == SubjectTotal(assignments, subjects)
    decreases |subjects|
  {
    if subjects != [] {
      RowsTotal(assignments, subjects[1..]);
      assert Rows(assignments, subjects)[1..] == Rows(assignments, subjects[1..]);
    }
  }

  /** The per-subject counts add up to the number of assignments. */
  lemma DistributionCoversAll(assignments: seq<Assignment>)
    ensures RowTotal(SubjectDistribution(assignments)) == |assignments|
  {
    var subjects := SubjectsOf(assignments);
    RowsTotal(assignments, subjects);
    SubjectCountsCover(assignments, subjects);
  }

  /** `recentStudents`: the first three students in user-list order. */
  function RecentStudents(users: seq<User>): (r: seq<User>)
    ensures |r| == if RoleCount(users, Student) < 3 then RoleCount(users, Student) else 3
    ensures forall i :: 0 <= i < |r| ==> r[i].role == Student && r[i] in users
    ensures r == Filter(users, RoleIs(Student))[..|r|]
  {
    var students := Filter(users, RoleIs(Student));
    assert forall i :: 0 <= i < |students| ==> RoleIs(Student)(students[i]);
    Take(students, 3)
  }

  /** The deadline list: the first five pending assignments in list order;
      neither filtered by date nor sorted. */
  function FirstPending(assignments: seq<Assignment>): (r: seq<Assignment>)
    ensures |r| == if StatusCount(assignments, Pending) < 5 then StatusCount(assignments, Pending) else 5
    ensures forall i :: 0 <= i < |r| ==> r[i].status == Pending && r[i] in assignments
    ensures r == Filter(assignments, StatusIs(Pending))[..|r|]
  {
    var pending := Filter(assignments, StatusIs(Pending));
    assert forall i :: 0 <= i < |pending| ==> StatusIs(Pending)(pending[i]);
    Take(pending, 5)
  }
}
