/** The student dashboard: status counts, completion rate, the three most
    urgent upcoming assignments, the subjects with their completion rates,
    and the days-left label and colour of each upcoming assignment. */
module StudentDashboard {
  import opened Wrappers
  import opened Seqs
  import opened Text
  import opened Types
  import opened Aggregates

  /** `upcomingAssignments`: pending, due after `now`, soonest first, at most three. */
  function UpcomingAssignments(sas: seq<Assignment>, now: Timestamp): (r: seq<Assignment>)
    ensures |r| <= 3
    ensures forall i :: 0 <= i < |r| ==> r[i].status == Pending && r[i].dueDate > now
    ensures SortedByDue(r)
    ensures multiset(r) <= multiset(sas)
    // nothing left out is due sooner than anything shown
    ensures forall x, i :: x in sas && IsUpcoming(x, now) && x !in r && 0 <= i < |r| ==>
              r[i].dueDate <= x.dueDate
    ensures |r| < 3 ==> forall x :: x in sas && IsUpcoming(x, now) ==> x in r
  {
    Upcoming(sas, now, 3)
  }

  /** The completion rate of one subject's assignments. */
  function SubjectRate(sas: seq<Assignment>, subject: string): (r: Option<nat>)
    ensures r.None? <==> SubjectCount(sas, subject) == 0
    ensures r.Some? ==> r.value <= 100
    // completed over all of the subject's assignments, rounded half up
    ensures var n, c := SubjectCount(sas, subject), StatusCount(Filter(sas, SubjectIs(subject)), Completed);
            r.Some? ==> 2 * n * r.value <= 200 * c + n < 2 * n * r.value + 2 * n
  {
    var own := Filter(sas, SubjectIs(subject));
    StatusPartition(own);
    Percent(StatusCount(own, Completed), |own|)
  }

  /** Every subject the dashboard lists has a defined rate. */
  lemma ListedSubjectsHaveRates(sas: seq<Assignment>)
    ensures forall subject :: subject in SubjectsOf(sas) ==>
              SubjectRate(sas, subject).Some? && SubjectRate(sas, subject).value <= 100
  {
    forall subject | subject in SubjectsOf(sas)
      ensures SubjectRate(sas, subject).Some?
    {
      SubjectNonEmpty(sas, subject);
    }
  }

  /** The days-left text of an upcoming assignment. */
  function DueLabel(diffDays: int): (r: string)
    ensures r == "Due today!" <==> diffDays == 0
    ensures r == "Due tomorrow!" <==> diffDays == 1
    ensures diffDays != 0 && diffDays != 1 ==>
              |r| == |IntToString(diffDays)| + 10 &&
              r[..|IntToString(diffDays)|] == IntToString(diffDays) && r[|IntToString(diffDays)|..] == " days left"
  {
    if diffDays == 0 then "Due today!"
    else if diffDays == 1 then "Due tomorrow!"
    else
      var r := IntToString(diffDays) + " days left";
      assert r[|r| - 1] == 't';
      r
  }

  datatype Tone = Red | Yellow | Gray

  /** The text colour of the days-left label. */
  function DueTone(diffDays: int): (t: Tone)
    ensures t == Red <==> diffDays <= 1
    ensures t == Yellow <==> 1 < diffDays <= 3
    ensures t == Gray <==> diffDays > 3
  {
    if diffDays <= 1 then Red else if diffDays <= 3 then Yellow else Gray
  }

  function Urgency(t: Tone): nat {
    match t
    case Red => 2
    case Yellow => 1
    case Gray => 0
  }

  /** A later due date never gets a more urgent colour. */
  lemma ToneMonotone(due1: Timestamp, due2: Timestamp, now: Timestamp)
    requires due1 <= due2
    ensures DiffDays(due1, now) <= DiffDays(due2, now)
    ensures Urgency(DueTone(DiffDays(due2, now))) <= Urgency(DueTone(DiffDays(due1, now)))
  {
  }

  /** Down the upcoming list, colours go from more to less urgent. */
  lemma UpcomingTonesDescend(sas: seq<Assignment>, now: Timestamp, i: nat, j: nat)
    requires i <= j < |UpcomingAssignments(sas, now)|
    ensures var r := UpcomingAssignments(sas, now);
            Urgency(DueTone(DiffDays(r[j].dueDate, now))) <= Urgency(DueTone(DiffDays(r[i].dueDate, now)))
  {
    var r := UpcomingAssignments(sas, now);
    ToneMonotone(r[i].dueDate, r[j].dueDate, now);
  }

  /** Only future assignments are listed, so "Due today!" is never shown. */
  lemma UpcomingNeverDueToday(sas: seq<Assignment>, now: Timestamp)
    ensures forall a :: a in UpcomingAssignments(sas, now) ==>
              DiffDays(a.dueDate, now) >= 1 && DueLabel(DiffDays(a.dueDate, now)) != "Due today!"
  {
    forall a | a in UpcomingAssignments(sas, now)
      ensures DiffDays(a.dueDate, now) >= 1
    {
      FutureIsAtLeastOneDay(a.dueDate, now);
    }
  }

  /** The filter and each row read the clock separately. An item still in the
      future at the filter's reading but due by the row's reading, less than a
      day before, is counted 0 days away and labelled "Due today!". */
  lemma DueTodayAtLaterRowReading(sas: seq<Assignment>, filterNow: Timestamp, rowNow: Timestamp, a: Assignment)
    requires a in UpcomingAssignments(sas, filterNow)
    requires a.dueDate <= rowNow < a.dueDate + DayMillis
    ensures a.dueDate > filterNow
    ensures DiffDays(a.dueDate, rowNow) == 0 && DueLabel(DiffDays(a.dueDate, rowNow)) == "Due today!"
  {
  }
}
