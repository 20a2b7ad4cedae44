/** The detail view of one assignment: the shared status badge, and the
    feedback, grade, progress and "Mark as Complete" parts that appear only
    under their conditions. */
module AssignmentModal {
  import opened Wrappers
  import opened Types
  import opened AssignmentCard
  import MockData

  /** `'progress' in assignment`: the value carries the student fields. */
  predicate IsStudentAssignment(a: Assignment) {
    a.student.Some?
  }

  /** A string field that JavaScript reads as true. */
  predicate Present(s: Option<string>) {
    s.Some? && s.value != ""
  }

  datatype ModalView = ModalView(
    badge: StatusBadge,
    feedback: Option<string>,
    grade: Option<string>,
    progress: Option<int>,
    offersMarkComplete: bool
  )

  /** What the modal shows for `a`. */
  function View(a: Assignment): (v: ModalView)
    ensures v.badge == StatusProps(a.status)
    ensures v.feedback.Some? <==> IsStudentAssignment(a) && Present(a.student.value.feedback)
    ensures v.feedback.Some? ==> v.feedback == a.student.value.feedback
    ensures v.grade.Some? <==> IsStudentAssignment(a) && Present(a.student.value.grade)
    ensures v.grade.Some? ==> v.grade == a.student.value.grade
    ensures v.progress.Some? <==> IsStudentAssignment(a)
    ensures v.progress.Some? ==> v.progress.value == a.student.value.progress
    ensures v.offersMarkComplete <==> a.status == Pending
  {
    var extra := a.student;
    ModalView(
      StatusProps(a.status),
      if extra.Some? && Present(extra.value.feedback) then extra.value.feedback else None,
      if extra.Some? && Present(extra.value.grade) then extra.value.grade else None,
      if extra.Some? then Some(extra.value.progress) else None,
      a.status == Pending)
  }

  /** A plain assignment shows none of the student parts. */
  lemma PlainAssignmentHasNoStudentParts(a: Assignment)
    requires a.student.None?
    ensures View(a).feedback.None? && View(a).grade.None? && View(a).progress.None?
  {
  }

  /** On the demo student data, feedback and grade appear exactly for the
      completed assignment, and the progress bar always appears. */
  lemma DemoStudentParts(progress: seq<int>, i: nat)
    requires |progress| == |MockData.Assignments()|
    requires forall j :: 0 <= j < |progress| ==> 0 <= progress[j] <= 99
    requires i < |progress|
    ensures var v := View(MockData.StudentAssignments(progress)[i]);
            (v.feedback.Some? <==> MockData.Assignments()[i].status == Completed) &&
            (v.grade.Some? <==> MockData.Assignments()[i].status == Completed) &&
            v.progress.Some? && 0 <= v.progress.value <= 99
  {
    var sa := MockData.StudentAssignments(progress)[i];
    assert sa == MockData.WithProgress(MockData.Assignments()[i], progress[i]);
    assert MockData.CompletedFeedback != "" && MockData.CompletedGrade != "";
  }
}
