/** One assignment's card: the status badge, the due-date text and the
    "View Details" button. The badge lookup is shared with the detail modal. */
module AssignmentCard {
  import opened Wrappers
  import opened Text
  import opened Types

  datatype Variant = Warning | Success | Danger

  datatype StatusBadge = StatusBadge(variant: Variant, caption: string)

  /** The `statusProps` lookup. */
  function StatusProps(status: Status): (b: StatusBadge)
    ensures b.variant == Variant.Warning <==> status == Pending
    ensures b.variant == Variant.Success <==> status == Completed
    ensures b.variant == Variant.Danger <==> status == Late
    // the label is the stored status name with its first letter capitalised
    ensures |b.caption| == |StatusName(status)| > 0
    ensures b.caption[0] == UpperChar(StatusName(status)[0]) && b.caption[1..] == StatusName(status)[1..]
  {
    match status
    case Pending => StatusBadge(Variant.Warning, "Pending")
    case Completed => StatusBadge(Variant.Success, "Completed")
    case Late => StatusBadge(Variant.Danger, "Late")
  }

  /** The text beside the clock icon: the status decides first, then the
      number of days left. */
  function DueText(status: Status, daysLeft: int): (r: string)
    ensures r == "Past due" <==> status == Late
    ensures r == "Completed" <==> status == Completed
    ensures r == "Due today" <==> status == Pending && daysLeft <= 0
    ensures status == Pending && daysLeft >= 1 ==>
              var n := NatToString(daysLeft);
              |r| > |n| && r[..|n|] == n &&
              r[|n|..] == (if daysLeft == 1 then " day left" else " days left")
  {
    match status
    case Late => "Past due"
    case Completed => "Completed"
    case Pending =>
      if daysLeft <= 0 then "Due today"
      else
        var n := NatToString(daysLeft);
        var r := n + (if daysLeft == 1 then " day left" else " days left");
        assert r[|r| - 1] == 't' && r[|r| - 2] == 'f';
        r
  }

  /** The count in a "left" text reads back as the number of days left. */
  lemma DueTextReadsBack(daysLeft: int)
    requires daysLeft >= 1
    ensures var r := DueText(Pending, daysLeft);
            var n := NatToString(daysLeft);
            AllDigits(r[..|n|]) && DecimalValue(r[..|n|]) == daysLeft
  {
    NatToStringRoundTrip(daysLeft);
  }

  /** `onViewDetails && onViewDetails(id)`: the card's own id reaches the
      callback only when one was given. */
  function ViewDetailsClick(hasCallback: bool, id: string): (passed: Option<string>)
    ensures passed.Some? <==> hasCallback
    ensures passed.Some? ==> passed.value == id
  {
    if hasCallback then Some(id) else None
  }
}
