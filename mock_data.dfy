/** The fixed records the application runs on: four users, five assignments,
    the student assignments derived from them, and four notifications. */
module MockData {
  import opened Wrappers
  import opened Text
  import opened Types

  function Users(): (us: seq<User>)
    ensures |us| == 4
  {
    [
      User("admin1", "Admin User", "admin@school.edu", Admin, None, None),
      User("parent1", "Parent One", "parent1@example.com", Parent, Some(["student1", "student2"]), None),
      User("student1", "Student One", "student1@school.edu", Student, None, Some("parent1")),
      User("student2", "Student Two", "student2@school.edu", Student, None, Some("parent1"))
    ]
  }

  /** User ids are unique. */
  lemma UserIdsUnique()
    ensures forall i, j :: 0 <= i < j < |Users()| ==> Users()[i].id != Users()[j].id
  {
    var us := Users();
    assert us[0].id[0] == 'a' && us[1].id[0] == 'p' && us[2].id[0] == 's' && us[3].id[0] == 's';
    assert us[2].id[7] == '1' && us[3].id[7] == '2';
  }

  /** Emails are unique ignoring case, so a lookup by email finds at most one user. */
  lemma EmailsUniqueIgnoringCase()
    ensures forall i, j :: 0 <= i < j < |Users()| ==> Lower(Users()[i].email) != Lower(Users()[j].email)
  {
    var us := Users();
    var l0, l1, l2, l3 := Lower(us[0].email), Lower(us[1].email), Lower(us[2].email), Lower(us[3].email);
    assert l0[0] == 'a' && l1[0] == 'p' && l2[0] == 's' && l3[0] == 's';
    assert l2[7] == '1' && l3[7] == '2';
  }

  /** Each id a parent lists is a student that names that parent back, and each
      student's parent lists that student. */
  lemma ParentLinksConsistent()
    ensures forall i, j ::
              (0 <= i < |Users()| && 0 <= j < |Users()| && Users()[i].parentOf.Some? &&
               Users()[j].id in Users()[i].parentOf.value) ==>
              Users()[j].role == Student && Users()[j].parentId == Some(Users()[i].id)
    ensures forall i, j :: 0 <= i < |Users()| && 0 <= j < |Users()| && Users()[j].parentId == Some(Users()[i].id) ==>
              Users()[i].role == Parent && Users()[i].parentOf.Some? && Users()[j].id in Users()[i].parentOf.value
    ensures forall i, c :: 0 <= i < |Users()| && Users()[i].parentOf.Some? && c in Users()[i].parentOf.value ==>
              c == Users()[2].id || c == Users()[3].id
    ensures forall j :: 0 <= j < |Users()| && Users()[j].parentId.Some? ==> Users()[j].parentId.value == Users()[1].id
  {
    UserIdsUnique();
    var us := Users();
    assert us[1].parentOf.value == [us[2].id, us[3].id];
  }

  function Assignments(): (as_: seq<Assignment>)
    ensures |as_| == 5
    ensures forall i, j :: 0 <= i < j < |as_| ==> as_[i].id != as_[j].id
    ensures forall i :: 0 <= i < |as_| ==> as_[i].student.None? && as_[i].createdBy == "admin1"
  {
    var as_ := [
      Assignment("assign1", "Math Homework - Algebra Basics", "Complete problems 1-20 in Chapter 3.",
        1747353599999, "Mathematics", 1746093600000, "admin1", Pending, None, None),
      Assignment("assign2", "Science Lab Report", "Write a 3-page report on the photosynthesis experiment.",
        1747612799999, "Science", 1746282600000, "admin1", Pending, None, None),
      Assignment("assign3", "History Essay", "Write a 5-page essay on World War II causes and effects.",
        1747785599999, "History", 1746436500000, "admin1", Pending, None, None),
      Assignment("assign4", "English Literature Analysis", "Analyze the main themes in \"To Kill a Mockingbird\".",
        1747094399999, "English", 1745840700000, "admin1", Late, None, None),
      Assignment("assign5", "Geometry Problems", "Solve the geometric problems in Worksheet 5.",
        1746921599999, "Mathematics", 1746019200000, "admin1", Completed, None, None)
    ];
    as_
  }

  const SubmittedAt: Timestamp := 1746804600000
  const CompletedFeedback: string := "Good work! Clear understanding of concepts."
  const CompletedGrade: string := "A"

  /** One assignment with the student fields added: submission time, feedback
      and grade exactly when the assignment is completed. */
  function WithProgress(a: Assignment, progress: int): (sa: Assignment)
    ensures sa.id == a.id && sa.title == a.title && sa.description == a.description
    ensures sa.dueDate == a.dueDate && sa.subject == a.subject && sa.status == a.status
    ensures sa.createdAt == a.createdAt && sa.createdBy == a.createdBy && sa.attachments == a.attachments
    ensures sa.student.Some? && sa.student.value.progress == progress
    ensures sa.student.value.submittedAt.Some? <==> a.status == Completed
    ensures sa.student.value.feedback.Some? <==> a.status == Completed
    ensures sa.student.value.grade.Some? <==> a.status == Completed
  {
    var done := a.status == Completed;
    a.(student := Some(Progress(
      progress,
      if done then Some(SubmittedAt) else None,
      if done then Some(CompletedFeedback) else None,
      if done then Some(CompletedGrade) else None)))
  }

  /** `assignments.map(...)`; `progress` supplies the values `Math.random` draws,
      each `Math.floor(Math.random() * 100)`. */
  function StudentAssignments(progress: seq<int>): (sas: seq<Assignment>)
    requires |progress| == |Assignments()|
    requires forall i :: 0 <= i < |progress| ==> 0 <= progress[i] <= 99
    ensures |sas| == |Assignments()|
    ensures forall i :: 0 <= i < |sas| ==> sas[i].id == Assignments()[i].id && sas[i].status == Assignments()[i].status
    // everything but the student fields is copied from the assignment
    ensures forall i :: 0 <= i < |sas| ==> sas[i].(student := None) == Assignments()[i]
    ensures forall i :: 0 <= i < |sas| ==> sas[i].student.Some? && 0 <= sas[i].student.value.progress <= 99
    ensures forall i :: 0 <= i < |sas| ==>
              (sas[i].student.value.submittedAt.Some? <==> sas[i].status == Completed) &&
              (sas[i].student.value.feedback.Some? <==> sas[i].status == Completed) &&
              (sas[i].student.value.grade.Some? <==> sas[i].status == Completed)
  {
    var as_ := Assignments();
    seq(|as_|, i requires 0 <= i < |as_| => WithProgress(as_[i], progress[i]))
  }

  function Notifications(): (ns: seq<Notification>)
    ensures |ns| == 4
    ensures forall i, j :: 0 <= i < j < |ns| ==> ns[i].id != ns[j].id
    // every notification is addressed to an existing user
    ensures forall i :: 0 <= i < |ns| ==> exists j :: 0 <= j < |Users()| && Users()[j].id == ns[i].userId
  {
    var us := Users();
    var ns := [
      Notification("notif1", "student1", "Your Math Homework is due tomorrow!", Warning, false, 1747213200000),
      Notification("notif2", "student1", "Your English Literature assignment is now overdue.", Error, true, 1747094400000),
      Notification("notif3", "parent1", "Your child has an upcoming Math assignment due soon.", Info, false, 1747132200000),
      Notification("notif4", "admin1", "5 assignments are due this week.", Info, false, 1747037700000)
    ];
    assert ns[0].id[5] == '1' && ns[1].id[5] == '2' && ns[2].id[5] == '3' && ns[3].id[5] == '4';
    assert us[2].id == ns[0].userId && us[2].id == ns[1].userId;
    assert us[1].id == ns[2].userId && us[0].id == ns[3].userId;
    ns
  }
}
